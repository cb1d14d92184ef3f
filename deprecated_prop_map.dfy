/**
  The deprecation table of the codemod: owner (a component, the `atoms`
  function or the `vars` theme object) -> prop -> old value -> new value,
  together with its two total lookups.
 */
module DeprecatedPropMap {

  type Table = map<string, map<string, map<string, string>>>

  /** The table, entry for entry. */
  const DeprecatedProps: Table := map[
    "Box" := map[
      "background" := map[
        "card" := "surface",
        "formAccentDisabled" := "neutralLight",
        "input" := "surface",
        "inputDisabled" := "neutralSoft",
        "selection" := "formAccentSoft"],
      "boxShadow" := map[
        "standard" := "neutralLight",
        "borderStandardInverted" := "borderNeutralInverted",
        "borderStandardInvertedLarge" := "borderNeutralInvertedLarge",
        "borderFormHover" := "borderFormAccent"]],
    "atoms" := map[
      "boxShadow" := map[
        "borderStandard" := "borderNeutralLight",
        "borderStandardInverted" := "borderNeutralInverted",
        "borderStandardInvertedLarge" := "borderNeutralInvertedLarge",
        "borderFormHover" := "borderFormAccent"]],
    "vars" := map[
      "backgroundColor" := map[
        "card" := "surface",
        "formAccentDisabled" := "neutralLight",
        "input" := "surface",
        "inputDisabled" := "neutralSoft",
        "selection" := "formAccentSoft"],
      "borderColor" := map[
        "standard" := "neutralLight",
        "standardInverted" := "neutralInverted",
        "formHover" := "formAccent"]]
  ]

  /** The owners of the table, i.e. `Object.keys(deprecatedPropMap)`. */
  const Owners: set<string> := {"Box", "atoms", "vars"}

  /** `isDeprecatedProp`: does the table hold a sub-table for this owner and prop? */
  predicate IsDeprecatedProp(component: string, prop: string)
    ensures IsDeprecatedProp(component, prop) ==> component in Owners && prop in {"background", "boxShadow", "backgroundColor", "borderColor"}
  {
    component in DeprecatedProps && prop in DeprecatedProps[component]
  }

  /** `getPropReplacement`: the mapped value, or the input itself when there is none. */
  function GetPropReplacement(component: string, prop: string, input: string): (r: string)
    ensures r != input ==> IsDeprecatedProp(component, prop) && input in DeprecatedProps[component][prop]
    ensures r == input || r in ReplacementValues
  {
    if IsDeprecatedProp(component, prop) && input in DeprecatedProps[component][prop]
    then DeprecatedProps[component][prop][input]
    else input
  }

  /** `b` is the replacement the table gives for `a` under some owner and prop. */
  ghost predicate IsReplacementOf(a: string, b: string)
  {
    exists c, p :: IsDeprecatedProp(c, p) && a in DeprecatedProps[c][p] && DeprecatedProps[c][p][a] == b
  }

  /** The set of all new values of the table. */
  const ReplacementValues: set<string> :=
    {"surface", "neutralLight", "neutralSoft", "formAccentSoft", "borderNeutralInverted",
     "borderNeutralInvertedLarge", "borderFormAccent", "borderNeutralLight", "neutralInverted",
     "formAccent"}

  lemma OwnersAreTableKeys()
    ensures DeprecatedProps.Keys == Owners
  {
  }

  /** An owner/prop pair is deprecated exactly when the table lists it; anything else is false. */
  lemma DeprecatedPairs(component: string, prop: string)
    ensures IsDeprecatedProp(component, prop) <==>
      (component, prop) in {("Box", "background"), ("Box", "boxShadow"), ("atoms", "boxShadow"),
                            ("vars", "backgroundColor"), ("vars", "borderColor")}
  {
  }

  lemma ReplacementValuesAreTheNewValues(c: string, p: string, v: string)
    requires IsDeprecatedProp(c, p) && v in DeprecatedProps[c][p]
    ensures DeprecatedProps[c][p][v] in ReplacementValues
  {
  }

  const BackgroundKeys: set<string> := {"card", "formAccentDisabled", "input", "inputDisabled", "selection"}
  const BoxShadowKeys: set<string> := {"standard", "borderStandardInverted", "borderStandardInvertedLarge", "borderFormHover"}
  const AtomsBoxShadowKeys: set<string> :=
    {"borderStandard", "borderStandardInverted", "borderStandardInvertedLarge", "borderFormHover"}
  const BorderColorKeys: set<string> := {"standard", "standardInverted", "formHover"}

  lemma NewValuesAreNotBackgroundKeys(v: string)
    requires v in ReplacementValues
    ensures v !in BackgroundKeys
  {
  }

  lemma NewValuesAreNotBoxShadowKeys(v: string)
    requires v in ReplacementValues
    ensures v !in BoxShadowKeys && v !in AtomsBoxShadowKeys
  {
  }

  lemma NewValuesAreNotBorderColorKeys(v: string)
    requires v in ReplacementValues
    ensures v !in BorderColorKeys
  {
  }

  /** No new value is an old value anywhere in the table. */
  lemma ReplacementValuesAreNotOldValues(c: string, p: string, v: string)
    requires IsDeprecatedProp(c, p)
    requires v in ReplacementValues
    ensures v !in DeprecatedProps[c][p]
  {
    DeprecatedPairs(c, p);
    var keys := DeprecatedProps[c][p].Keys;
    if c == "Box" && p == "background" {
      assert keys == BackgroundKeys;
      NewValuesAreNotBackgroundKeys(v);
    } else if c == "Box" {
      assert keys == BoxShadowKeys;
      NewValuesAreNotBoxShadowKeys(v);
    } else if c == "atoms" {
      assert keys == AtomsBoxShadowKeys;
      NewValuesAreNotBoxShadowKeys(v);
    } else if p == "backgroundColor" {
      assert keys == BackgroundKeys;
      NewValuesAreNotBackgroundKeys(v);
    } else {
      assert keys == BorderColorKeys;
      NewValuesAreNotBorderColorKeys(v);
    }
  }
}
