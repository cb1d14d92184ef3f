# Braid design system: the prop-deprecation codemod and the colour-mode key buffer

This project models two parts of the Braid design system in Dafny.

The first part is the codemod that moves code off deprecated Braid values:
- the deprecation table `deprecatedPropMap` and its two lookups;
- `updateStringLiteral` and `deArray`;
- `createHighlightedCodeFrame`, the source excerpt that warnings print;
- the two value tracers, both called `subVisitor`;
- the prop-deprecation plugin: its `pre`, its `Program.enter` import scan, and its `JSXOpeningElement` and `CallExpression` visitors;
- the `vars` plugin: `walk` and its `Program.enter`.

The second part is the keystroke buffer of `BraidProvider`. Typing `dark` anywhere on the page adds the dark-mode class to the document element. Typing `light` removes it.

Modules, one per file:
- `Options` holds the optional value that stands for `undefined`/`null`.
- `DeprecatedPropMap` is the table, entry for entry.
- `JsStrings` holds `String.prototype.substr` and the suffix test built on it.
- `Ast` holds the parsed file:
  - an immutable tree of numbered nodes with parent links;
  - Babel's scope bindings as one map;
  - a mutable `text` array with the value of each string literal and the name of each identifier;
  - the file's warning list and the console.
- `Helpers` holds `updateStringLiteral` and `deArray`.
- `CodeFrame` holds `createHighlightedCodeFrame`.
- `SubVisitor` is the tracer of `plugin-deprecate`.
- `PropDeprecation` is the prop-deprecation plugin with its own tracer.
- `VarsWalk` is `walk` and the `vars` plugin.
- `ColorModeToggle` is the `BraidProvider` key buffer.

Each visitor has two forms:
- a function over a `Store` value (text, warnings, console), which is the specification;
- a method that changes a `SourceFile` in place, as the source does. Its `ensures` says that the new state is what the function computes.

The properties the source promises are lemmas about the functions.

The line labels of the code frame are zero-based indices of `code.split('\n')`. Babel's `loc.line` is one-based. The model keeps this as written.

## Model

| member | source | states |
|---|---|---|
| DeprecatedPropMap.OwnersAreTableKeys | codemod/prop-deprecation/deprecatedPropMap.ts:1-39 | the table's owners, `Object.keys(deprecatedPropMap)`, are exactly `Box`, `atoms` and `vars` |
| DeprecatedPropMap.DeprecatedPairs | codemod/prop-deprecation/deprecatedPropMap.ts:43-47 | `isDeprecatedProp(c, p)` holds exactly for the five owner/prop pairs the table lists, and for no other strings |
| DeprecatedPropMap.ReplacementValuesAreTheNewValues | codemod/prop-deprecation/deprecatedPropMap.ts:1-39 | every replacement in the table is one of the ten new token names |
| DeprecatedPropMap.ReplacementValuesAreNotOldValues | codemod/prop-deprecation/deprecatedPropMap.ts:1-39 | no new token name is an old value under any deprecated owner/prop pair |
| DeprecatedPropMap.IsDeprecatedProp | codemod/prop-deprecation/deprecatedPropMap.ts:43-47 | a deprecated owner/prop pair has a table owner, and its prop is one of `background`, `boxShadow`, `backgroundColor` and `borderColor` |
| DeprecatedPropMap.GetPropReplacement | codemod/prop-deprecation/deprecatedPropMap.ts:49-53 | the value is changed only when the table maps it under that owner and prop, and then to one of the new token names; otherwise the input comes back (`?? inputValue`) |
| Ast.Children | codemod/prop-deprecation/babel-plugin.ts:243-256 | the children a traversal visits: none for literals and names, and a call's callee before its arguments |
| Ast.IsBraidSource | codemod/prop-deprecation/babel-plugin.ts:189 | `/braid-design-system(?:\/css)?$/`: holds for `braid-design-system` and `braid-design-system/css`, and only for sources at least as long as the package name |
| Helpers.UpdateStringLiteral | codemod/plugin-deprecate/helpers.ts:7-15 | the literal at `id` becomes the table's replacement when the owner/prop pair is deprecated; every other entry of the text is unchanged |
| Helpers.PropKey | codemod/plugin-deprecate/helpers.ts:7-14 | the key a prop name is looked up under: the name itself, and `undefined` exactly for a missing name or the name `undefined` |
| Helpers.UpdatedValue | codemod/plugin-deprecate/helpers.ts:12-13 | the new value of a literal differs from the old one only when the owner/prop pair is deprecated and the table maps the value, and is then a new token name |
| Helpers.UpdatedValueIsTableReplacement | codemod/prop-deprecation/babel-plugin.ts:20-32 | the update changes a value only when the pair is deprecated and the table maps the value, and then to exactly the mapped value |
| Helpers.ReplacementIsFinal | codemod/prop-deprecation/babel-plugin.ts:20-32 | a replaced value is never replaced again, under any owner and prop |
| Helpers.RewritesCompose | codemod/prop-deprecation/babel-plugin.ts:20-32 | a second update of an updated literal, under any owner and prop, is still the original value or its table replacement |
| Helpers.RewritesTransitive | codemod/prop-deprecation/deprecatedPropMap.ts:49-53 | two rewrites in a row are one rewrite: the table never chains replacements |
| Helpers.UpdateEvolves | codemod/plugin-deprecate/helpers.ts:7-15 | an update changes only that string literal, and only to its table replacement |
| Helpers.UpdateIsIdempotent | codemod/prop-deprecation/babel-plugin.ts:20-32 | updating a literal twice under the same owner and prop is the same as updating it once |
| Helpers.DeArray | codemod/plugin-deprecate/helpers.ts:17-18 | a single value is returned as it is; an array gives its first element, and nothing when it is empty |
| JsStrings.Substr | lib/components/BraidProvider/BraidProvider.tsx:107 | `substr(start)` returns a suffix of the string that is no longer than the string |
| JsStrings.SubstrFromEndIsSuffixTest | lib/components/BraidProvider/BraidProvider.tsx:107-115 | `s.substr(s.length - t.length) === t` holds exactly when `s` ends with `t`, also when `s` is shorter than `t` |
| JsStrings.SubstrKeepsLast | lib/components/BraidProvider/BraidProvider.tsx:117-119 | `s.substr(s.length - n)` is the last `n` characters of a string at least `n` long |
| CodeFrame.Split | codemod/plugin-deprecate/helpers.ts:24 | `split('\n')` gives at least one piece, and no piece holds a newline |
| CodeFrame.Join | codemod/plugin-deprecate/helpers.ts:24 | `join('\n')` starts with the first line, followed by a newline when there are more lines |
| CodeFrame.JoinSplit | codemod/plugin-deprecate/helpers.ts:24 | joining the pieces of `split('\n')` with newlines gives back the text |
| CodeFrame.SplitOfLine | codemod/plugin-deprecate/helpers.ts:24 | a text without a newline splits into itself alone |
| CodeFrame.SplitOfLineAndRest | codemod/plugin-deprecate/helpers.ts:24 | a text with a newline splits into the part before the first newline, then the split of the rest |
| CodeFrame.SplitJoin | codemod/plugin-deprecate/helpers.ts:24 | splitting the join of newline-free lines gives back the lines |
| CodeFrame.Digits | codemod/plugin-deprecate/helpers.ts:44 | the decimal digits of a natural number are digit characters, and there is one digit exactly when the number is below 10 |
| CodeFrame.DigitsValueOfDigits | codemod/plugin-deprecate/helpers.ts:44 | the digits of `n` denote `n` |
| CodeFrame.DecimalString | codemod/plugin-deprecate/helpers.ts:44 | `n.toString()` is non-empty and starts with `-` exactly when `n` is negative |
| CodeFrame.ParseDecimal | codemod/plugin-deprecate/helpers.ts:44 | reading a decimal string back gives a number that is not positive after a minus sign and not negative without one |
| CodeFrame.DecimalStringRoundTrip | codemod/plugin-deprecate/helpers.ts:44 | parsing `n.toString()` back gives `n` |
| CodeFrame.Repeat | codemod/plugin-deprecate/helpers.ts:47 | `n` copies of a character: length `n`, every position that character |
| CodeFrame.PadStart | codemod/plugin-deprecate/helpers.ts:47-48 | `padStart` gives the larger of the width and the string's length, with the fill in front and the string at the end |
| CodeFrame.LineAt | codemod/plugin-deprecate/helpers.ts:30-38 | `codeLines[i]` is the line at `i` when there is one, and otherwise interpolates as `undefined` |
| CodeFrame.Labelled | codemod/plugin-deprecate/helpers.ts:30-38 | a labelled line is the line number, `" | "`, then the line, and no longer |
| CodeFrame.LabelWidth | codemod/plugin-deprecate/helpers.ts:41-45 | the `Math.max` of the label lengths kept by `filter(Boolean)`: at least each of them, equal to one of them, and at least 1 |
| CodeFrame.CaretLine | codemod/plugin-deprecate/helpers.ts:47-52 | the caret line starts with the label padding and the three blanks under `" \| "` |
| CodeFrame.CaretLineMarksColumns | codemod/plugin-deprecate/helpers.ts:47-52 | the caret line is blank for the label, `" \| "` and the columns before `start.column`, then holds one `^` per column up to `end.column` |
| CodeFrame.HighlightedCodeFrame | codemod/plugin-deprecate/helpers.ts:20-54 | the frame before `dedent`: a line before is shown only from the third line on, and the middle line ends with the start line of the text |
| CodeFrame.Indent | codemod/plugin-deprecate/helpers.ts:56 | the number of blanks a line starts with, as the `^(\s+)` of `dedent` measures it |
| CodeFrame.LeastIndent | codemod/plugin-deprecate/helpers.ts:56 | `dedent`'s `mindent`: the least indentation among the lines that have blanks and then something else, attained by one of them, and nothing when there is none |
| CodeFrame.DedentUndoesTemplate | codemod/plugin-deprecate/helpers.ts:49-56 | when every line holds more than blanks and the first line and one other start unindented, `dedent` takes off exactly the four blanks the template literal put before the other lines |
| CodeFrame.MarginIsDedented | codemod/prop-deprecation/babel-plugin.ts:69-76 | when the first line is unindented and every line holds more than blanks, how many blanks the template literal puts before its other lines (2 in `prop-deprecation`, 4 in `plugin-deprecate`) does not change what `dedent` returns |
| CodeFrame.LabelledStartsUnindented | codemod/plugin-deprecate/helpers.ts:30-38 | a labelled line starts with its label, never with a blank |
| CodeFrame.CaretLineNotBlank | codemod/plugin-deprecate/helpers.ts:47-52 | a caret line that marks a column holds something besides blanks |
| CodeFrame.PrintedIsShown | codemod/plugin-deprecate/helpers.ts:49-56 | with a line before or after shown, and no frame line indented, the template literal after `trim` and `dedent` gives back the frame's own lines |
| CodeFrame.PrintedFrameIsItsLines | codemod/plugin-deprecate/helpers.ts:20-56 | with a line before or after shown and at least one column marked, `createHighlightedCodeFrame` returns the frame's lines, the `^`s in the columns the frame put them |
| CodeFrame.ShownCodeThenCaret | codemod/plugin-deprecate/helpers.ts:49-54 | the caret line is printed right after the middle line |
| CodeFrame.CaretLostWithoutNeighbours | codemod/plugin-deprecate/helpers.ts:49-56 | on the one-line text `ab`, with no line before or after, `dedent` strips the caret line's padding: `0 \| ab` is followed by `^`, under the label instead of under `b` |
| CodeFrame.OneLineFrame | codemod/plugin-deprecate/helpers.ts:20-54 | the frame of the second character of the one-line text `ab`, line by line |
| CodeFrame.CaretAloneIsDedented | codemod/plugin-deprecate/helpers.ts:49-56 | with neither the line before nor the line after shown, the caret line loses all its leading blanks |
| CodeFrame.CodeLineShowsStartLine | codemod/plugin-deprecate/helpers.ts:24-30 | the middle line of the frame is the start line of the text under the label `start.line - 1` |
| CodeFrame.BeforeLineShownFromThirdLine | codemod/plugin-deprecate/helpers.ts:32-35 | the line before is shown exactly when `start.line >= 3` |
| CodeFrame.AfterLineShownWhenItExists | codemod/plugin-deprecate/helpers.ts:36-39 | the line after is shown exactly when `end.line` indexes a line of the text |
| CodeFrame.CaretsUnderLabelledLine | codemod/plugin-deprecate/helpers.ts:30-52 | under a label as wide as the padding, each `^` is in the column of the character it marks |
| CodeFrame.CaretsAlignUnderWidestLabel | codemod/plugin-deprecate/helpers.ts:41-56 | when the start line's label is the widest, the `^`s sit exactly under `start.column` up to `end.column` of the start line; when a line before or after is shown and a column is marked, the returned lines are those of the frame, so this holds of the output |
| CodeFrame.CaretMisalignedOnFirstLine | codemod/plugin-deprecate/helpers.ts:41-52 | on the first line, the `-1` label widens the padding, and the `^` lands one column right of the character it marks |
| CodeFrame.FirstLineNeverShownBefore | codemod/plugin-deprecate/helpers.ts:32-35 | on the second line, the first line of the text is not shown before it |
| CodeFrame.AlignedFrameShowsLineBefore | codemod/plugin-deprecate/helpers.ts:32-35 | corrected frame: the line before is shown exactly from the second line on, and it is that line under its index |
| CodeFrame.AlignedCodeFrame | codemod/plugin-deprecate/helpers.ts:20-52 | corrected frame: the line before is shown only from the second line on, and the middle line's label is padded to the caret line's width |
| CodeFrame.AlignedCodeAndCaret | codemod/plugin-deprecate/helpers.ts:30-52 | corrected frame: the middle line is the start line under a label padded to the widest label, above the caret line for that width |
| CodeFrame.AlignedFrameUnderlinesColumns | codemod/plugin-deprecate/helpers.ts:41-56 | corrected frame: on every start line, the `^`s sit under the marked characters and blanks under the ones before them, and the corrected function returns those lines, the caret line right after the start line, with or without a neighbour line |
| SubVisitor.AfterVisit | codemod/plugin-deprecate/subVisitor.ts:24-128 | visiting a node (its handler, then its descendants) keeps one text entry per node |
| SubVisitor.AfterTraverse | codemod/plugin-deprecate/subVisitor.ts:42-47 | `path.traverse(subVisitor, ctx)` over a node's children keeps one text entry per node |
| SubVisitor.AfterHandler | codemod/plugin-deprecate/subVisitor.ts:24-128 | the StringLiteral, ObjectProperty and Identifier handlers keep one text entry per node |
| SubVisitor.VisitEvolves | codemod/plugin-deprecate/subVisitor.ts:24-128 | the tracer only rewrites string literals to their table replacement, and only appends warnings and console lines |
| SubVisitor.TraverseEvolves | codemod/plugin-deprecate/subVisitor.ts:42-47 | the same, for a traversal of a node's children |
| SubVisitor.HandlerEvolves | codemod/plugin-deprecate/subVisitor.ts:24-128 | the same, for one handler, including the nested traversals it starts |
| SubVisitor.ObjectPropertyHandlerEvolves | codemod/plugin-deprecate/subVisitor.ts:34-73 | the ObjectProperty handler, including the nested traversal of a deprecated prop, only rewrites through the table and appends diagnostics |
| SubVisitor.IdentifierHandlerEvolves | codemod/plugin-deprecate/subVisitor.ts:74-127 | the Identifier handler, including the nested traversal of a declaration's initializer, only rewrites through the table and appends diagnostics |
| SubVisitor.SaturatedVisitKeepsText | codemod/plugin-deprecate/subVisitor.ts:25-79 | past ten nested traversals (`recurses > 9`), no literal is rewritten |
| SubVisitor.SaturatedTraverseKeepsText | codemod/plugin-deprecate/subVisitor.ts:25-79 | the same, for a traversal |
| SubVisitor.SaturatedHandlerKeepsText | codemod/plugin-deprecate/subVisitor.ts:25-79 | the same, for one handler |
| SubVisitor.UnlistedOwnerKeepsText | codemod/plugin-deprecate/subVisitor.ts:34-36 | for an owner that is not in the table, no literal is rewritten |
| SubVisitor.UnlistedOwnerTraverseKeepsText | codemod/plugin-deprecate/subVisitor.ts:34-36 | the same, for a traversal |
| SubVisitor.UnlistedOwnerHandlerKeepsText | codemod/plugin-deprecate/subVisitor.ts:34-36 | the same, for one handler |
| SubVisitor.ImportedIdentifierWarns | codemod/plugin-deprecate/subVisitor.ts:106-126 | an identifier bound by an import specifier adds exactly one untraceable-import warning naming the local name, the source, the prop and the owner |
| SubVisitor.ConstLiteralIsRewritten | codemod/plugin-deprecate/subVisitor.ts:87-97 | an identifier bound to a string-literal initialiser rewrites exactly that literal, and nothing else happens |
| SubVisitor.MissingPropRewritesNothing | codemod/plugin-deprecate/subVisitor.ts:25-33 | a literal visited before any prop name is known (the key `undefined`) is never rewritten |
| SubVisitor.DeprecatedKeyRewritesItsValue | codemod/plugin-deprecate/subVisitor.ts:34-48 | `{ background: 'card' }` under a listed owner rewrites its value literal as a `background` value, and the outer visit leaves it as it is |
| SubVisitor.DeprecatedKeyIsDescended | codemod/plugin-deprecate/subVisitor.ts:37-60 | a plain key or a computed string-literal key that names a deprecated prop: the property is traversed again with that prop name, one nesting level deeper |
| SubVisitor.ComputedKeyWarns | codemod/plugin-deprecate/subVisitor.ts:50-70 | under a listed owner, any other computed key adds exactly one untraceable-property warning and rewrites nothing |
| SubVisitor.QuietPropertyIsNotDescended | codemod/plugin-deprecate/subVisitor.ts:34-48 | a plain key that names no deprecated prop, or any key of an unlisted owner: the handler does nothing, and the value is visited only by the enclosing traversal under the same context |
| SubVisitor.Visit | codemod/plugin-deprecate/subVisitor.ts:24-128 | the in-place visit leaves the file as `AfterVisit` says |
| SubVisitor.Traverse | codemod/plugin-deprecate/subVisitor.ts:42-47 | the in-place traversal leaves the file as `AfterTraverse` says |
| SubVisitor.OnStringLiteral | codemod/plugin-deprecate/subVisitor.ts:25-33 | the StringLiteral handler, in place |
| SubVisitor.OnObjectProperty | codemod/plugin-deprecate/subVisitor.ts:34-73 | the ObjectProperty handler, in place |
| SubVisitor.OnIdentifier | codemod/plugin-deprecate/subVisitor.ts:74-127 | the Identifier handler, in place |
| SubVisitor.OnBoundIdentifier | codemod/plugin-deprecate/subVisitor.ts:87-126 | the Identifier handler past the recursion check and the binding lookup, in place |
| SubVisitor.OnDeclaredIdentifier | codemod/plugin-deprecate/subVisitor.ts:87-104 | a name bound by a declaration: the literal initializer is rewritten, any other initializer traversed one recursion deeper, in place |
| PropDeprecation.AfterTrace | codemod/prop-deprecation/babel-plugin.ts:80-173 | a visit of a node runs its handler, then, unless the handler threw, traverses its children with the context object the handler left |
| PropDeprecation.AfterTraceAll | codemod/prop-deprecation/babel-plugin.ts:80-173 | a traversal threads the prop name and `propLocation` through the shared context object, and stops at the first visit that throws |
| PropDeprecation.AfterTraceHandler | codemod/prop-deprecation/babel-plugin.ts:80-173 | the three handlers; an imported name met while `propLocation` is set adds its console warning, and met while it is unset ends the traversal with the `TypeError` of the code frame (see ImportedIdentifierWarns and ImportedIdentifierThrows) |
| PropDeprecation.HasProp | codemod/prop-deprecation/babel-plugin.ts:92 | the truthiness of `this.propName`: set and non-empty, and then its own lookup key |
| PropDeprecation.SpecifiersTrack | codemod/prop-deprecation/babel-plugin.ts:191-206 | after one import's specifiers, a local name is tracked exactly when it was before or a named specifier imports a table owner under it; tracked names stand for owners |
| PropDeprecation.ScanSpecifier | codemod/prop-deprecation/babel-plugin.ts:191-205 | one specifier keeps every tracked name, and a name it tracks anew, or again, stands for a table owner |
| PropDeprecation.ScanSpecifiers | codemod/prop-deprecation/babel-plugin.ts:191-206 | the same, for the specifiers of an import |
| PropDeprecation.ScanStatement | codemod/prop-deprecation/babel-plugin.ts:186-207 | the same, for one statement; a statement that is not an import from Braid changes nothing |
| PropDeprecation.ScanStatements | codemod/prop-deprecation/babel-plugin.ts:183-209 | the same, for the whole body |
| PropDeprecation.ScanTracksExactlyBraidOwners | codemod/prop-deprecation/babel-plugin.ts:183-209 | after `Program.enter`, a local name is tracked exactly when an import whose source ends in `braid-design-system` or `braid-design-system/css` brings in a table owner under it, and it always stands for an owner |
| PropDeprecation.ForeignImportsAreIgnored | codemod/prop-deprecation/babel-plugin.ts:183-209 | a body with no import from Braid leaves the plugin's state unchanged |
| PropDeprecation.ElementName | codemod/prop-deprecation/babel-plugin.ts:211-226 | an element is tracked under the owner its imported name stands for, or as `Namespace.Owner`; a namespaced JSX name never is |
| PropDeprecation.AfterAttribute | codemod/prop-deprecation/babel-plugin.ts:228-258 | an attribute's own value is traced with its name and location; a spread is traced with neither, so an imported name in it throws (see SpreadOfImportThrows) |
| PropDeprecation.AfterAttributes | codemod/prop-deprecation/babel-plugin.ts:228-258 | the attributes in order, stopping at the first that throws |
| PropDeprecation.AfterOpeningElement | codemod/prop-deprecation/babel-plugin.ts:211-260 | the attributes of an element whose name stands for an owner are visited under that owner; any other element is left alone |
| PropDeprecation.AfterArgument | codemod/prop-deprecation/babel-plugin.ts:271-290 | a bound name is traced from its binding's node, an object from the first argument, both without prop name or location, so an imported name met there throws |
| PropDeprecation.AfterArguments | codemod/prop-deprecation/babel-plugin.ts:271-290 | the arguments in order, stopping at the first that throws |
| PropDeprecation.AfterCall | codemod/prop-deprecation/babel-plugin.ts:261-292 | the arguments of a call are visited only when its callee is a name bound to an owner |
| PropDeprecation.AfterSite | codemod/prop-deprecation/babel-plugin.ts:211-292 | the visitor on entering a node: JSX opening elements and calls are handled, every other node is left alone |
| PropDeprecation.AfterProgram | codemod/prop-deprecation/babel-plugin.ts:181-293 | the plugin's traversal of a subtree, entering each node before its children; an exception ends it |
| PropDeprecation.AfterProgramAll | codemod/prop-deprecation/babel-plugin.ts:181-293 | the same, for a sequence of subtrees |
| PropDeprecation.TraceConsoleOnly | codemod/prop-deprecation/babel-plugin.ts:80-173 | this tracer only rewrites string literals to their table replacement, never touches the file's warnings, and only appends to the console |
| PropDeprecation.TraceAllConsoleOnly | codemod/prop-deprecation/babel-plugin.ts:80-173 | the same, for a traversal |
| PropDeprecation.TraceHandlerConsoleOnly | codemod/prop-deprecation/babel-plugin.ts:80-173 | the same, for one handler |
| PropDeprecation.IdentifierHandlerConsoleOnly | codemod/prop-deprecation/babel-plugin.ts:116-172 | the same, for the Identifier handler with its nested traversal |
| PropDeprecation.AttributeConsoleOnly | codemod/prop-deprecation/babel-plugin.ts:228-258 | the same, for one attribute |
| PropDeprecation.AttributesConsoleOnly | codemod/prop-deprecation/babel-plugin.ts:228-258 | the same, for the attributes of an element |
| PropDeprecation.ArgumentConsoleOnly | codemod/prop-deprecation/babel-plugin.ts:271-290 | the same, for one argument of a call |
| PropDeprecation.ArgumentsConsoleOnly | codemod/prop-deprecation/babel-plugin.ts:271-290 | the same, for the arguments of a call |
| PropDeprecation.SiteConsoleOnly | codemod/prop-deprecation/babel-plugin.ts:211-292 | the same, for the visitor at one node |
| PropDeprecation.ProgramConsoleOnly | codemod/prop-deprecation/babel-plugin.ts:181-293 | the same, for the whole traversal of a subtree |
| PropDeprecation.ProgramAllConsoleOnly | codemod/prop-deprecation/babel-plugin.ts:181-293 | the same, for a sequence of subtrees |
| PropDeprecation.ForeignFileIsUntouched | codemod/prop-deprecation/babel-plugin.ts:183-209 | a file that imports nothing from Braid comes out exactly as it went in |
| PropDeprecation.UntrackedProgramIsUntouched | codemod/prop-deprecation/babel-plugin.ts:177-180 | with the state `pre()` sets, the traversal changes nothing |
| PropDeprecation.UntrackedProgramAllIsUntouched | codemod/prop-deprecation/babel-plugin.ts:177-180 | the same, for a sequence of subtrees |
| PropDeprecation.UnboundIdentifierIsNoOp | codemod/prop-deprecation/babel-plugin.ts:122-127 | within the nesting limit, an identifier with no binding changes nothing, not even the context object |
| PropDeprecation.UntrackedCallIsIgnored | codemod/prop-deprecation/babel-plugin.ts:261-270 | a call whose callee is not a name bound to an owner leaves the file as it is and does not throw |
| PropDeprecation.ObjectArgumentTracesFirst | codemod/prop-deprecation/babel-plugin.ts:282-288 | an object among the arguments traces the children of the first argument (`deArray` of the argument list), whichever argument the object is, without prop name or location |
| PropDeprecation.UnboundArgumentIsIgnored | codemod/prop-deprecation/babel-plugin.ts:272-276 | an argument name with no binding is skipped |
| PropDeprecation.ImportedIdentifierWarns | codemod/prop-deprecation/babel-plugin.ts:148-170 | with `propLocation` set, an imported name adds exactly one console warning naming the local name, the import's source, the prop and the owner, and the traversal goes on |
| PropDeprecation.ImportedIdentifierThrows | codemod/prop-deprecation/babel-plugin.ts:148-170 | with `propLocation` unset, an imported name ends the traversal with an exception, before anything is printed |
| PropDeprecation.SpreadOfImportThrows | codemod/prop-deprecation/babel-plugin.ts:251-256 | `<Box {...styles} />` with `styles` imported: the spread attribute's visit throws, leaving the file as it was |
| PropDeprecation.Located | codemod/prop-deprecation/babel-plugin.ts:243-249 | the context object with its location set, and nothing else changed |
| PropDeprecation.LocatedTraceNeverThrows | codemod/prop-deprecation/babel-plugin.ts:80-173 | corrected tracer: with a location set, a visit never throws, and the location stays set |
| PropDeprecation.LocatedTraceAllNeverThrows | codemod/prop-deprecation/babel-plugin.ts:80-173 | the same, for a traversal |
| PropDeprecation.LocatedHandlerNeverThrows | codemod/prop-deprecation/babel-plugin.ts:80-173 | the same, for one handler |
| PropDeprecation.SaturatedTraceKeepsText | codemod/prop-deprecation/babel-plugin.ts:80-127 | once `this.recurses > 9`, a visit of the tracer rewrites no literal and does not throw |
| PropDeprecation.SaturatedTraceAllKeepsText | codemod/prop-deprecation/babel-plugin.ts:80-127 | the same, for a traversal: the shared context object keeps its `recurses` |
| PropDeprecation.SaturatedTraceHandlerKeepsText | codemod/prop-deprecation/babel-plugin.ts:81-121 | the same, for one handler: StringLiteral and Identifier only print `Too many recurses`, and ObjectProperty starts no traversal |
| PropDeprecation.LocatedSpreadOfImportWarns | codemod/prop-deprecation/babel-plugin.ts:148-170 | corrected tracer: a spread of an imported name traced with a location set gets its one console warning, and the traversal goes on |
| PropDeprecation.LiteralAttributeIsNoSite | codemod/prop-deprecation/babel-plugin.ts:236-241 | the traversal does nothing inside an attribute whose value is a string literal |
| PropDeprecation.TrackedElementSite | codemod/prop-deprecation/babel-plugin.ts:211-228 | entering an element whose name stands for a tracked owner runs its attributes under that owner |
| PropDeprecation.LiteralAttributeIsUpdated | codemod/prop-deprecation/babel-plugin.ts:229-241 | an attribute whose value is a string literal has that literal rewritten through the table under the owner and the attribute's name |
| PropDeprecation.ExpressionAttributeIsTraced | codemod/prop-deprecation/babel-plugin.ts:242-250 | an attribute whose value is an expression is traced below that value with the attribute's name as prop and no recursion yet |
| PropDeprecation.TraceOfLiteral | codemod/prop-deprecation/babel-plugin.ts:81-89 | within the recursion limit, the tracer rewrites a string literal to the table's value and keeps the prop name |
| PropDeprecation.TraceOfKeptLiteral | codemod/prop-deprecation/babel-plugin.ts:81-89 | a literal without a table entry is left as it is |
| PropDeprecation.IdentifierFollowsDeclaration | codemod/prop-deprecation/babel-plugin.ts:116-146 | an identifier bound to a declaration whose initializer is not a literal starts a nested traversal of the initializer, one recursion deeper, and keeps the prop name |
| PropDeprecation.AliasedImportIsTracked | codemod/prop-deprecation/babel-plugin.ts:183-209 | `import { Box as BraidBox }` from the design system tracks `BraidBox` as `Box` |
| PropDeprecation.BoxCardBackground | codemod/prop-deprecation/deprecatedPropMap.ts:2-4 | `Box`'s `background="card"` becomes `surface` |
| PropDeprecation.BoxBodyBackground | codemod/prop-deprecation/deprecatedPropMap.ts:3-9 | `Box`'s `background="body"` has no entry and is kept |
| PropDeprecation.BoxStandardShadow | codemod/prop-deprecation/deprecatedPropMap.ts:10-11 | `Box`'s `boxShadow="standard"` becomes `neutralLight` |
| PropDeprecation.AliasedBoxIsRewritten | codemod/prop-deprecation/babel-plugin.test.ts:30-50 | `<BraidBox background="card" boxShadow="standard" />` with `Box as BraidBox` becomes `surface`/`neutralLight`, and the `div` is left alone |
| PropDeprecation.AliasedBoxRun | codemod/prop-deprecation/babel-plugin.test.ts:30-50 | the traversal of that file's tree rewrites exactly the two attribute literals |
| PropDeprecation.DivIsUntouched | codemod/prop-deprecation/babel-plugin.test.ts:30-50 | the untracked `div` element is not touched |
| PropDeprecation.BraidBoxIsRewritten | codemod/prop-deprecation/babel-plugin.test.ts:30-50 | the aliased element's two literals are rewritten |
| PropDeprecation.QuietIsUntouched | codemod/prop-deprecation/babel-plugin.ts:211-292 | a subtree without JSX opening elements and calls is not touched |
| PropDeprecation.QuietAllIsUntouched | codemod/prop-deprecation/babel-plugin.ts:211-292 | the same, for a sequence of such subtrees |
| PropDeprecation.FollowedVariableIsRewritten | codemod/prop-deprecation/babel-plugin.test.ts:97-119 | `const bgColor = true ? 'card' : 'body'` used as `background={bgColor}` rewrites `card` to `surface`, keeps `body`, and rewrites `boxShadow="standard"` |
| PropDeprecation.BoxElementIsRewritten | codemod/prop-deprecation/babel-plugin.test.ts:97-119 | the element of that file rewrites the followed literal and its own `boxShadow` literal |
| PropDeprecation.BackgroundVariableIsFollowed | codemod/prop-deprecation/babel-plugin.ts:116-146 | the tracer follows `bgColor` to its declaration and rewrites only the deprecated branch |
| PropDeprecation.ConditionalIsRewritten | codemod/prop-deprecation/babel-plugin.test.ts:97-119 | inside `true ? 'card' : 'body'` traced for `Box`'s `background`, only `card` is rewritten |
| PropDeprecation.TraceContext.constructor | codemod/prop-deprecation/babel-plugin.ts:243-249 | a fresh tracer context object with the given owner, prop name, location flag and depth |
| PropDeprecation.Trace | codemod/prop-deprecation/babel-plugin.ts:80-173 | the in-place visit leaves the file, the context's prop name and location as `AfterTrace` says, and returns whether it threw |
| PropDeprecation.TraceAll | codemod/prop-deprecation/babel-plugin.ts:80-173 | the in-place traversal, as `AfterTraceAll` says, returning whether it threw |
| PropDeprecation.TraceStringLiteral | codemod/prop-deprecation/babel-plugin.ts:81-89 | the StringLiteral handler, in place |
| PropDeprecation.TraceObjectProperty | codemod/prop-deprecation/babel-plugin.ts:90-115 | the ObjectProperty handler, which sets the context's prop name and location in place |
| PropDeprecation.TraceIdentifier | codemod/prop-deprecation/babel-plugin.ts:116-172 | the Identifier handler, in place, as `AfterTraceHandler` says: a console warning, or an exception when no location is set, returned as whether it threw |
| PropDeprecation.TraceDeclaredIdentifier | codemod/prop-deprecation/babel-plugin.ts:129-146 | a name bound by a declaration: the literal initializer is rewritten, any other initializer traversed with a copy of the context one recursion deeper, in place, returning whether that threw |
| PropDeprecation.Attribute | codemod/prop-deprecation/babel-plugin.ts:228-258 | one attribute, in place, as `AfterAttribute` says, returning whether it threw |
| PropDeprecation.Argument | codemod/prop-deprecation/babel-plugin.ts:271-290 | one call argument, in place, as `AfterArgument` says, returning whether it threw |
| PropDeprecation.PropDeprecationPass.constructor | codemod/prop-deprecation/babel-plugin.ts:177-180 | `pre()`: no tracked names and no namespace |
| PropDeprecation.PropDeprecationPass.ProgramEnter | codemod/prop-deprecation/babel-plugin.ts:183-209 | the in-place import scan records what `ScanStatements` computes |
| PropDeprecation.PropDeprecationPass.OnJsxOpeningElement | codemod/prop-deprecation/babel-plugin.ts:211-260 | the JSXOpeningElement visitor, in place, as `AfterOpeningElement` says, returning whether it threw |
| PropDeprecation.PropDeprecationPass.OnCallExpression | codemod/prop-deprecation/babel-plugin.ts:261-292 | the CallExpression visitor, in place, as `AfterCall` says, returning whether it threw |
| PropDeprecation.PropDeprecationPass.Run | codemod/prop-deprecation/babel-plugin.ts:181-293 | the plugin's traversal of a subtree, in place, as `AfterProgram` says, returning whether it threw |
| PropDeprecation.PropDeprecationPass.RunAll | codemod/prop-deprecation/babel-plugin.ts:181-293 | the same, for a sequence of subtrees |
| VarsWalk.AfterWalk | codemod/plugin-deprecate/plugin-deprecate-vars.ts:7-104 | `walk` keeps one text entry per node |
| VarsWalk.VarsTable | codemod/prop-deprecation/deprecatedPropMap.ts:25-38 | `deprecatedPropMap.vars` as `walk`'s record: the groups `backgroundColor` and `borderColor`, each a nested record |
| VarsWalk.GroupTable | codemod/plugin-deprecate/plugin-deprecate-vars.ts:20-22 | a nested record as the next `deprecations`: the same keys, each mapped to one of the record's new names |
| VarsWalk.AfterEntry | codemod/plugin-deprecate/plugin-deprecate-vars.ts:18-52 | walking into a nested record, or renaming the property, keeps one text entry per node |
| VarsWalk.AfterWalkRefs | codemod/plugin-deprecate/plugin-deprecate-vars.ts:57-59 | walking a binding's references in order keeps one text entry per node |
| VarsWalk.AfterWalkPattern | codemod/plugin-deprecate/plugin-deprecate-vars.ts:62-102 | the loop over a destructuring pattern keeps one text entry per node |
| VarsWalk.AfterPatternProperty | codemod/plugin-deprecate/plugin-deprecate-vars.ts:63-100 | one pattern property keeps one text entry per node |
| VarsWalk.AfterVarsSpecifier | codemod/plugin-deprecate/plugin-deprecate-vars.ts:118-137 | one specifier of a Braid import keeps one text entry per node |
| VarsWalk.AfterVarsSpecifiers | codemod/plugin-deprecate/plugin-deprecate-vars.ts:118-138 | the specifiers of one import keep one text entry per node |
| VarsWalk.AfterVarsEnter | codemod/plugin-deprecate/plugin-deprecate-vars.ts:110-141 | `Program.enter` keeps one text entry per node |
| VarsWalk.Walk | codemod/plugin-deprecate/plugin-deprecate-vars.ts:7-104 | the in-place `walk` leaves the file and outcome as `AfterWalk` says |
| VarsWalk.ApplyEntry | codemod/plugin-deprecate/plugin-deprecate-vars.ts:18-52 | the in-place handling of a looked-up entry, as `AfterEntry` says |
| VarsWalk.WalkRefs | codemod/plugin-deprecate/plugin-deprecate-vars.ts:57-59 | the in-place loop over references, as `AfterWalkRefs` says |
| VarsWalk.WalkPattern | codemod/plugin-deprecate/plugin-deprecate-vars.ts:62-102 | the in-place loop over pattern properties, as `AfterWalkPattern` says |
| VarsWalk.PatternProperty | codemod/plugin-deprecate/plugin-deprecate-vars.ts:63-100 | one pattern property in place, as `AfterPatternProperty` says |
| VarsWalk.VarsProgramEnter | codemod/plugin-deprecate/plugin-deprecate-vars.ts:110-141 | the in-place `Program.enter` with its nested loops, as `AfterVarsEnter` says |
| VarsWalk.RenamesTransitive | codemod/plugin-deprecate/plugin-deprecate-vars.ts:7-104 | two renaming steps in a row are one renaming step |
| VarsWalk.VarsTableWritesVarsNames | codemod/prop-deprecation/babel-plugin.ts:422 | every leaf of `deprecatedPropMap.vars` is one of the six new `vars` names |
| VarsWalk.GroupTableWritesItsValues | codemod/plugin-deprecate/plugin-deprecate-vars.ts:21-22 | a nested record, passed as the next `deprecations`, writes only its own values |
| VarsWalk.WalkRenames | codemod/plugin-deprecate/plugin-deprecate-vars.ts:7-104 | `walk` changes only the property names of member expressions, only to names of the table, never adds warnings, and only appends to the console |
| VarsWalk.EntryRenames | codemod/plugin-deprecate/plugin-deprecate-vars.ts:18-52 | the same, for the handling of one entry |
| VarsWalk.RefsRenames | codemod/plugin-deprecate/plugin-deprecate-vars.ts:57-59 | the same, for the walk of a binding's references |
| VarsWalk.PatternRenames | codemod/plugin-deprecate/plugin-deprecate-vars.ts:62-102 | the same, for a destructuring pattern |
| VarsWalk.PatternPropertyRenames | codemod/plugin-deprecate/plugin-deprecate-vars.ts:63-100 | the same, for one pattern property |
| VarsWalk.SpecifiersRename | codemod/plugin-deprecate/plugin-deprecate-vars.ts:118-138 | the same, for the specifiers of an import, with the names of `deprecatedPropMap.vars` |
| VarsWalk.VarsPassOnlyRenamesMemberProperties | codemod/plugin-deprecate/plugin-deprecate-vars.ts:110-141 | the whole `vars` pass renames only member properties, only to the new `vars` names, whether it completes, throws or overflows |
| VarsWalk.VarsRenamesAreFinal | codemod/prop-deprecation/deprecatedPropMap.ts:25-38 | in each `vars` group no new name is an old name, which is what keeps a renamed property from being renamed again (see RenamedMemberIsFinal) |
| VarsWalk.VarsImportWalksReferences | codemod/plugin-deprecate/plugin-deprecate-vars.ts:118-136 | `import { vars } from 'braid-design-system'` walks each reference of `vars` with the `vars` table |
| VarsWalk.NestedAccessIsRenamed | codemod/plugin-deprecate/plugin-deprecate-vars.ts:18-28 | `vars.backgroundColor.card` becomes `vars.backgroundColor.surface` |
| VarsWalk.DestructuredGroupIsFollowed | codemod/plugin-deprecate/plugin-deprecate-vars.ts:62-90 | `const { borderColor: border } = vars; border.standard` renames `standard` to `neutralLight` |
| VarsWalk.DestructuredLeafThrows | codemod/plugin-deprecate/plugin-deprecate-vars.ts:68-77 | `const { standard } = vars.borderColor` throws on `standard` and renames nothing |
| VarsWalk.BorderReferenceIsRenamed | codemod/plugin-deprecate/plugin-deprecate-vars.ts:18-27 | `border.standard`, walked with the `borderColor` record, becomes `border.neutralLight` and completes |
| VarsWalk.AbsentPropertyIsKept | codemod/plugin-deprecate/plugin-deprecate-vars.ts:18-28 | `obj.property` with `property` not in the record: nothing is renamed or followed, and the walk completes |
| VarsWalk.ComputedLiteralIsLookedUp | codemod/plugin-deprecate/plugin-deprecate-vars.ts:30-39 | `obj['property']` with a key of the record: the literal is handled like a plain name |
| VarsWalk.ComputedExpressionWarns | codemod/plugin-deprecate/plugin-deprecate-vars.ts:40-50 | `obj[expression]` whose property is neither a literal nor a name in the record: one untraceable-property console warning, nothing renamed |
| VarsWalk.RestElementKeepsRecord | codemod/plugin-deprecate/plugin-deprecate-vars.ts:91-100 | `...rest` in a destructuring pattern walks the references of `rest` with the same record |
| VarsWalk.RenamedMemberIsFinal | codemod/plugin-deprecate/plugin-deprecate-vars.ts:18-28 | `vars.group.name` with `name` in the group: the walk renames it to its new name, and walking the renamed access again changes nothing |
| VarsWalk.BackgroundCardIsSurface | codemod/prop-deprecation/deprecatedPropMap.ts:26-27 | `vars.backgroundColor` is a nested record in which `card` is renamed `surface` |
| VarsWalk.BorderStandardIsNeutralLight | codemod/prop-deprecation/deprecatedPropMap.ts:33-34 | `vars.borderColor` is a nested record in which `standard` is renamed `neutralLight` |
| VarsWalk.MemberStep | codemod/plugin-deprecate/plugin-deprecate-vars.ts:18-27 | a walk that reaches the object of a non-computed `obj.property`, with `property` a key of the record, goes on with that key's entry |
| VarsWalk.RefsOfOne | codemod/plugin-deprecate/plugin-deprecate-vars.ts:57-59 | walking a binding with one reference is walking that reference |
| VarsWalk.PatternDeclaratorStep | codemod/plugin-deprecate/plugin-deprecate-vars.ts:53-62 | a walk that reaches the initialiser of a destructuring declaration goes on with the pattern, one stack frame deeper |
| VarsWalk.PatternOfOne | codemod/plugin-deprecate/plugin-deprecate-vars.ts:62-63 | the loop over a pattern of one property is the handling of that property |
| VarsWalk.GroupPropertyIsFollowed | codemod/plugin-deprecate/plugin-deprecate-vars.ts:64-89 | `{ key: value }` with `key` naming a nested record walks every reference of `value` with that record |
| VarsWalk.LeafPropertyThrows | codemod/plugin-deprecate/plugin-deprecate-vars.ts:64-77 | `{ key: value }` with `key` naming a leaf throws on `key` and changes nothing |
| VarsWalk.SelfAliasOverflows | codemod/plugin-deprecate/plugin-deprecate-vars.ts:53-61 | a declarator whose name refers back to itself makes `walk` recurse until the stack runs out |
| VarsWalk.RedeclaredAliasOverflows | codemod/plugin-deprecate/plugin-deprecate-vars.ts:53-61 | `var x = vars; var x = x` never completes, whatever the stack depth |
| ColorModeToggle.LastFive | lib/components/BraidProvider/BraidProvider.tsx:117-119 | at most five characters, a suffix of the text, and the whole text when it is short |
| ColorModeToggle.Keystroke | lib/components/BraidProvider/BraidProvider.tsx:105-120 | the suffix rule: the buffer is at most five characters, empty after a toggle, and otherwise a suffix of the typed text |
| ColorModeToggle.DarkAfter | lib/components/BraidProvider/BraidProvider.tsx:108-113 | a toggle sets dark mode on for `add` and off for `remove`; no toggle keeps it |
| ColorModeToggle.Step | lib/components/BraidProvider/BraidProvider.tsx:105-120 | one keystroke leaves at most five characters, and a change of mode empties the buffer |
| ColorModeToggle.Type | lib/components/BraidProvider/BraidProvider.tsx:105-121 | a run of keystrokes leaves at most five characters in the buffer |
| ColorModeToggle.KeyDown | lib/components/BraidProvider/BraidProvider.tsx:105-120 | the source's keystroke handler equals the suffix rule (`dark` turns dark mode on, `light` turns it off, either clears the buffer, otherwise the last five characters are kept), and the buffer never exceeds five characters |
| ColorModeToggle.DarkChangesOnlyOnSuffix | lib/components/BraidProvider/BraidProvider.tsx:107-115 | dark mode turns on only when the typed text ends in `dark`, and off only when it ends in `light` |
| ColorModeToggle.KeyExtendsBuffer | lib/components/BraidProvider/BraidProvider.tsx:105-120 | a one-character key other than `k` and `t` leaves the mode alone and appends itself to what the buffer ended with |
| ColorModeToggle.TypeAppend | lib/components/BraidProvider/BraidProvider.tsx:105-121 | typing two runs of keys is typing the first run, then the second |
| ColorModeToggle.NeutralKeysExtendBuffer | lib/components/BraidProvider/BraidProvider.tsx:105-120 | up to five such keys leave the mode alone, and the buffer ends with the keys in order |
| ColorModeToggle.TypeThenKey | lib/components/BraidProvider/BraidProvider.tsx:105-121 | typing a run and then one more key is one step after the run |
| ColorModeToggle.CompletingKeyToggles | lib/components/BraidProvider/BraidProvider.tsx:107-115 | the key that completes `dark` or `light` after its first letters sets the mode and clears the buffer, whatever was typed before |
| ColorModeToggle.TypingDarkTurnsDarkModeOn | lib/components/BraidProvider/BraidProvider.tsx:107-110 | typing `d`, `a`, `r`, `k` always ends in dark mode with an empty buffer |
| ColorModeToggle.TypingLightTurnsDarkModeOff | lib/components/BraidProvider/BraidProvider.tsx:112-115 | typing `l`, `i`, `g`, `h`, `t` always ends out of dark mode with an empty buffer |
| ColorModeToggle.ToggledClasses | lib/components/BraidProvider/BraidProvider.tsx:108-113 | `classList.add`/`remove` put the dark-mode class in or out as the toggle says, and leave every other class as it is |
| ColorModeToggle.DocumentElement.constructor | lib/components/BraidProvider/BraidProvider.tsx:108 | the document element with the given classes |
| ColorModeToggle.KeyListener.constructor | lib/components/BraidProvider/BraidProvider.tsx:104 | `let code = ''`: the listener starts with an empty buffer |
| ColorModeToggle.KeyListener.OnKeyDown | lib/components/BraidProvider/BraidProvider.tsx:105-120 | the listener, in place: the new buffer and class list are what `KeyDown` and `ToggledClasses` say |
| ColorModeToggle.Install | lib/components/BraidProvider/BraidProvider.tsx:99-121 | no listener inside another `BraidProvider`, otherwise a fresh listener with an empty buffer |

## Left out

- Babel itself is left out: parsing, printing, `NodePath`, and the visitor-key order. A traversal visits a node's children in the order of `Children`.
- Lexical scoping is left out. `scope.getBinding(name)` is one map from names to bindings for the whole file.
- The import statements are a separate list of statements, given next to the tree.
- The text of warnings and console messages is left out, and so are the file name and the source locations. A diagnostic is recorded by its kind and the names it mentions. The code frames inside the messages are not attached to the diagnostics; the exception the prop-deprecation tracer's frame throws when `this.propLocation` is unset is modelled, by the `located` flag of the context object.
- An exception thrown inside a visitor ends the traversal, and the model returns the file as it stood then, with `thrown` set. What the caller does with the exception is not modelled: `codemod.ts` is not part of this model.
- CodeFrame.HighlightedCodeFrame: `trim` is modelled as dropping the omitted lines at either end of the template literal, not the trailing blanks of its last line. The replacement by `dedent` of the two characters `\n` with a newline and lines indented by tabs are not modelled. The lines are kept as a sequence, not joined by newlines. The other text rewrites `dedent` makes before it measures the indentation are not modelled either: a backslash at the end of a line is removed together with the newline and the blanks and tabs after it, so that line is joined with the next one, and `` \` `` becomes `` ` ``.
- CodeFrame.CaretsAlignUnderWidestLabel: the alignment is stated of the returned lines only when a line before or after is shown and a column is marked. With no neighbour line, `dedent` strips the caret line's padding, as CodeFrame.CaretLostWithoutNeighbours shows. The statement about the returned lines also rests on `Printed`, so it needs shown lines that neither end in a backslash nor hold `` \` ``.
- CodeFrame.PrintedIsShown: `Printed` leaves out the backslash-newline join and the backtick unescape of `dedent`, so it is what `createHighlightedCodeFrame` returns only when no shown line ends in a backslash or holds `` \` ``. A start line that ends in a backslash is joined with the caret line by the source and kept apart by the model.
- CodeFrame.PrintedFrameIsItsLines: it rests on `Printed`, so what it says of the returned lines holds only when no shown line ends in a backslash or holds `` \` ``.
- CodeFrame.AlignedFrameUnderlinesColumns: the corrected function returns the frame's lines without the template's indentation and without `dedent`, so its alignment does not depend on a neighbour line. A correction that keeps `dedent` is not modelled.
- VarsWalk.VarsRenamesAreFinal: it states the table fact. That walking a renamed access again renames nothing is proved for one member access at a time (VarsWalk.RenamedMemberIsFinal), not for a second whole `Program.enter` pass.
- JavaScript property lookups are modelled as map lookups. A prototype property such as `constructor` or `toString` is not in the tables, so it is not modelled.
- `plugin-deprecate/deprecationMap` is not part of this model. The `plugin-deprecate` tracer, `updateStringLiteral` and the `vars` plugin look values up in the `deprecatedPropMap` table, which is the table that `prop-deprecation/babel-plugin.ts` uses for the same passes.
- `walk` in `prop-deprecation/babel-plugin.ts` (lines 297-394) and its `varsPlugin` (lines 396-435) repeat `plugin-deprecate-vars.ts` line for line. They are modelled once, by `VarsWalk`.
- `createHighlightedCodeFrame` in `prop-deprecation/babel-plugin.ts` (lines 41-78) repeats `helpers.ts` except for the template literal's indentation: 2 blanks, not 4. `dedent` removes that indentation, so the result is the same (CodeFrame.MarginIsDedented). It is modelled once, by `CodeFrame`, with the 4 blanks of `helpers.ts`.
- VarsWalk.AfterWalk: the recursion depth of `walk` is a `fuel` parameter. Running out of it stands for the engine's stack overflow, whose depth is not modelled.
- The atoms plugin, the other codemod plugins, `codemod.ts` and the runner scripts are not part of this model.
- `BraidProvider` outside the key buffer is not part of this model: the React tree, contexts, asserts and styles.
- The `removeEventListener` cleanup of the effect is not modelled.
- `Math.max` of an empty list would be `-Infinity`. The model never reaches it, because the start line and the line before cannot both be zero.
- The `CodeFrame` text is a sequence of characters, so `length` counts characters, not UTF-16 code units.

## Findings

| source | as written | input that shows it | evidently intended | confidence | as-written member | corrected member |
|---|---|---|---|---|---|---|
| codemod/plugin-deprecate/helpers.ts:41-52 | the padding before the `^`s is as wide as the widest line-number label, but the start line's own label is not padded to that width | code `"a\nb"`, start (1, 0), end (1, 1): the labels are `-1`, `0` and `1`, the padding is two wide, the code line is `0 \| a` and the caret line is `     ^`, one column right of `a` | the `^`s sit under the characters from `start.column` up to `end.column` | not executed | CodeFrame.CaretMisalignedOnFirstLine | CodeFrame.AlignedFrameUnderlinesColumns |
| codemod/plugin-deprecate/helpers.ts:32-35 | the line before is shown only when `beforeLineNumber > 0` | code `"a\nb"`, start on line 2: `beforeLineNumber` is 0, so the first line `a` is not shown, though it is the line before | the line before is shown whenever it exists (`>= 0`) | not executed | CodeFrame.FirstLineNeverShownBefore | CodeFrame.AlignedFrameShowsLineBefore |
| codemod/prop-deprecation/babel-plugin.ts:148-170 | the untraceable-import warning builds a code frame of `this.propLocation`, which only an object property (lines 97, 100) and an attribute's own value (line 247) set; `createHighlightedCodeFrame` destructures its location (lines 41-44) | `import { bg } from './x'; <Box {...bg} />`: the spread's context (lines 251-256) has no location, so the warning throws a `TypeError` and the transform of the file ends; `atoms(importedStyles)` (lines 276-288) likewise | the warning is printed, with or without a location, and the traversal goes on | not executed | PropDeprecation.SpreadOfImportThrows | PropDeprecation.LocatedSpreadOfImportWarns |
| codemod/plugin-deprecate/helpers.ts:49-56 | `dedent` takes off the least indentation of the indented lines; with neither a line before nor a line after shown, the caret line is the only indented line | code `"ab"`, start (1, 1), end (1, 2): the result is `0 \| ab` then `^`, the `^` under the label instead of under `b` | the `^`s keep their column under the start line | not executed | CodeFrame.CaretLostWithoutNeighbours | CodeFrame.AlignedFrameUnderlinesColumns |
