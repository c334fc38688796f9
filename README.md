# raml-actions in Dafny

A model of the action lifecycle engine of raml-actions, the library behind the
context actions and context menu of a RAML editor, together with the text and
tree helpers the actions are built on. One Dafny module per source file:

- `ContextActions` (context_actions.dfy): the registry of context-dependent
  actions and the three-sweep `calculateCurrentActions` that turns the actions
  registered for a target into executable actions. The sweeps are the start
  hooks, then state calculation and visibility filtering, then the finish
  hooks. The module also covers the `onClick` of an executable action (plain
  or UI action) and the categorised action label. The registry is a class
  whose `actions` sequence `addAction` appends to. Each sweep is a method
  with a loop, proved equal to a specification function, and the properties
  are lemmas about those functions. The code an action carries is not
  visible here: its state calculator and hooks, its visibility filter, its
  UI, its converter and its `onClick`. It is an `Env` of functions of the
  calls made so far, and every call the engine makes is recorded in a trace
  of `Event`s.
- `ContextMenu` (context_menu.dfy): the contributor registry (a map, last
  registration wins) and `calculateMenuItemsTree`, which notifies, collects
  and files every contributed item into a tree under its category path.
- `SharedAstState` (shared_state.dfy): the one-slot cache of the "general
  AST state". The start hook of a calculation fills it and the finish hook
  empties it. The module covers `calculateState` and its `null` cases, the
  delegating `CommonASTStateCalculator`, the `NullCalculator`, and the walk
  back over spaces and tabs that picks the offset whose AST node is selected.
  The editor, the parser and the completion-kind classifier are a `World` of
  functions.
- `LineUtils` (line_utils.dfy): `splitOnLines`, with the regular expression
  `/^.*((\r\n|\n|\r)|$)/gm` followed step by step, and `cleanEmptyLines`.
- `UiActions` (ui_actions.dfy): `indent` and `stripIndent`.
- `CompleteBody` (complete_body.dfy): `getKeyValue`, the word under the
  cursor. The copy at src/actions/uiActions.ts:225-244 is the same code and
  is modelled once.
- `JsonSchema` (json_schema.dfy): the `JsonSchemaGenerator`, which derives a
  schema from an example JSON value in the style of JSON Schema draft 03
  (draft-zyp-json-schema-03: `type` in section 5.1, `properties` in section
  5.2, `items` in section 5.5, `required` in section 5.7).
- `StateUtils` (state_utils.dfy): `getItemById`, a depth-first search of a
  details tree. The module also covers the null-parent and `"body"` key
  guards of `newNode` and `applyChanges`.
- `Wrappers` (wrappers.dfy): `Option`, and `Outcome` for a call that returns
  or throws.

## Model

| member | source | states |
|---|---|---|
| ContextActions.SimpleAction | src/actionManagement/contextActionsImpl.ts:33-45 | the descriptor addSimpleAction builds has no state calculator, no label and no UI |
| ContextActions.ActionRegistry.AddAction | src/actionManagement/contextActionsImpl.ts:12-20 | a name already registered leaves the registry unchanged, a new one is appended at the end; names stay unique |
| ContextActions.ActionRegistry.AddSimpleAction | src/actionManagement/contextActionsImpl.ts:33-45 | registers the simple descriptor under the same first-registration-wins rule |
| ContextActions.ActionRegistry.CalculateCurrentActions | src/actionManagement/contextActionsImpl.ts:107-155 | the result and the call trace are those of the three sweeps over the actions of the target; a `null` or `undefined` thrown by a callback ends the run through the outer handler, which logs once and returns the actions calculated so far |
| ContextActions.RunHooks | src/actionManagement/contextActionsImpl.ts:116-124 | the hook loop makes exactly the calls of the hook sweep; an ordinary exception is logged and the loop goes on, a `null` or `undefined` leaves it |
| ContextActions.RunCalculations | src/actionManagement/contextActionsImpl.ts:126-141 | the calculation loop produces exactly the executables and calls of the calculation sweep, stopping where a `null` or `undefined` is thrown |
| ContextActions.CalculateOne | src/actionManagement/contextActionsImpl.ts:127-140 | one action: state `null` without calculator, dropped when the filter says false, dropped and logged on an exception |
| ContextActions.FilteredSelects | src/actionManagement/contextActionsImpl.ts:112-114 | an action is selected if and only if it is registered with the queried target, and the selection keeps registration order |
| ContextActions.CalcSweepOrder | src/actionManagement/contextActionsImpl.ts:126-141 | the calculation sweep keeps a subsequence of its actions, each executable a faithful copy of its descriptor |
| ContextActions.PipelineTargetsAndOrder | src/actionManagement/contextActionsImpl.ts:107-155 | only actions of the target are returned, in registration order, each copying name, category, label and target, with state `null` when there is no calculator |
| ContextActions.PipelinePhases | src/actionManagement/contextActionsImpl.ts:111-152 | every start hook call precedes every `calculate`, every finish hook call follows the last one, and the outer handler's log comes last |
| ContextActions.PipelineCalls | src/actionManagement/contextActionsImpl.ts:111-152 | one start call, one `calculate` and one finish call per selected action that has that entry, in order, not deduplicated by calculator; when the outer handler ran, a prefix of each, and all start calls once the start sweep finished |
| ContextActions.SharedCalculatorStartedTwice | src/actionManagement/contextActionsImpl.ts:116-124 | two actions sharing one calculator whose start hook never throws `null` or `undefined` make it start twice |
| ContextActions.CalcStepDecision | src/actionManagement/contextActionsImpl.ts:127-140 | an action is kept exactly when its calculation returned and its filter, if any, returned true; an ordinary exception from either is logged, a `null` or `undefined` leaves the sweep |
| ContextActions.CalcSweepSplits | src/actionManagement/contextActionsImpl.ts:126-141 | an ordinary exception for one action does not affect the processing of the actions after it; after a `null` or `undefined` nothing more is calculated |
| ContextActions.PlainActionAlwaysReturned | src/actionManagement/contextActionsImpl.ts:126-141 | an action of the target with neither calculator nor filter is returned, with state `null`, whenever the outer handler did not end the run |
| ContextActions.HookSweepCalls | src/actionManagement/contextActionsImpl.ts:143-151 | a hook sweep calls its hook once per action that has it, in order, and nothing else; a sweep that is left made a prefix of those calls |
| ContextActions.HookSweepSplits | src/actionManagement/contextActionsImpl.ts:116-124 | a hook sweep over two lists is the sweep over the first, then, unless it was left, the sweep over the second |
| ContextActions.PipelineOuterCatch | src/actionManagement/contextActionsImpl.ts:111-152 | the outer handler runs exactly when a `null` or `undefined` was thrown, and logs one error as the last call of the run |
| ContextActions.NullishCalculationEndsTheRun | src/actionManagement/contextActionsImpl.ts:126-152 | when the first action's `calculate` throws `undefined`, the second is never calculated, no finish hook runs and nothing is returned |
| ContextActions.Clicks | src/actionManagement/contextActionsImpl.ts:91-94 | each completion of the UI calls `onClick(state, finalUIState)` once, in order |
| ContextActions.TriggerPlain | src/actionManagement/contextActionsImpl.ts:96-99 | a plain action, including one whose `displayUI` is not a function, calls `onClick(state)` exactly once |
| ContextActions.TriggerUI | src/actionManagement/contextActionsImpl.ts:83-95 | a UI action shows its UI once with the converted state (or the state itself), and `onClick` fires only from the UI's completions, with the calculated state |
| ContextActions.GetCategorizedActionLabel | src/actionManagement/contextActionsImpl.ts:163-179 | a non-empty label is returned as is; otherwise the loop builds "api-workbench:", then each category followed by ": ", then the name |
| ContextActions.UnlabelledLabel | src/actionManagement/contextActionsImpl.ts:163-179 | without a non-empty label, the label starts with "api-workbench:" and ends with the name |
| ContextActions.CategoryPrefixAppend | src/actionManagement/contextActionsImpl.ts:170-174 | the category prefix of a joined path is the joined prefixes |
| ContextMenu.MenuRegistry.RegisterContributor | src/actionManagement/contextMenuImpl.ts:14-16 | the contributor is stored under its id, replacing an earlier one of that id in the same key position |
| ContextMenu.MenuRegistry.AddMenuItem | src/actionManagement/contextMenuImpl.ts:26-30 | changes nothing |
| ContextMenu.MenuRegistry.DeleteMenuItems | src/actionManagement/contextMenuImpl.ts:38-40 | changes nothing |
| ContextMenu.MenuRegistry.DeleteMenuItem | src/actionManagement/contextMenuImpl.ts:50-52 | changes nothing |
| ContextMenu.MenuRegistry.CalculateMenuItemsTree | src/actionManagement/contextMenuImpl.ts:86-114 | the three loops build the tree and make the calls of the menu pipeline |
| ContextMenu.Notify | src/actionManagement/contextMenuImpl.ts:89-95 | a notification loop calls the notification of every contributor that has it, in key order |
| ContextMenu.CollectItems | src/actionManagement/contextMenuImpl.ts:97-103 | the items loop asks each contributor once and files its items, as the items sweep does |
| ContextMenu.FileItems | src/actionManagement/contextMenuImpl.ts:100-102 | the `forEach` files every item of one contributor, in order |
| ContextMenu.MenuPipelineCalls | src/actionManagement/contextMenuImpl.ts:86-114 | every present `calculationStarted` comes before every `calculateItems`, which come before every present `calculationFinished`, each sweep in key order; with no empty category, the finished tree has unique sibling names at every level |
| ContextMenu.ItemsSweepCalls | src/actionManagement/contextMenuImpl.ts:97-103 | each contributor is asked for its items exactly once, in key order |
| ContextMenu.NewNode | src/actionManagement/contextMenuImpl.ts:66-79 | a node copies selector, categories and callback, has no children, and takes the override as name unless it is empty |
| ContextMenu.FindByName | src/actionManagement/contextMenuImpl.ts:122-124 | the index of the first node of that name, or none when no node has it |
| ContextMenu.RemoveFirstNamedKeepsOthers | src/actionManagement/contextMenuImpl.ts:140-149 | removing takes out exactly the first node of that name: the nodes before it keep their index, the nodes after it move up by one, and every other node stays; without such a node the list is unchanged |
| ContextMenu.InsertLeaf | src/actionManagement/contextMenuImpl.ts:140-153 | the item's leaf goes at the end of the list after the other nodes; an older node of that name is gone |
| ContextMenu.InsertSegment | src/actionManagement/contextMenuImpl.ts:120-137 | each category reuses the first node of that name, changing only its children (name, selector, onClick and categories kept), or appends exactly one new node, built by `NewNode` from the item with the segment as name; other siblings stay |
| ContextMenu.InsertReachesLeaf | src/actionManagement/contextMenuImpl.ts:116-154 | following the category path after filing leads to a list that ends with the item's leaf |
| ContextMenu.InsertKeepsUnique | src/actionManagement/contextMenuImpl.ts:116-154 | with no empty category, filing keeps sibling names unique at every level |
| ContextMenu.LastWriterWins | src/actionManagement/contextMenuImpl.ts:140-153 | after filing, the item's leaf is the only node of its name in its list |
| ContextMenu.AddAllKeepsUnique | src/actionManagement/contextMenuImpl.ts:100-102 | filing all items of a contributor keeps sibling names unique |
| ContextMenu.ItemsSweepKeepsUnique | src/actionManagement/contextMenuImpl.ts:96-104 | asking every contributor in turn and filing its items keeps sibling names unique when no category is empty |
| ContextMenu.EmptySegmentDuplicatesName | src/actionManagement/contextMenuImpl.ts:126-128 | an empty category makes a node named after the item, which can duplicate a sibling |
| SharedAstState.NormalizedOffset | src/actionManagement/sharedASTStateCalculator.ts:251-263 | the offset is unchanged unless a space or tab precedes it; otherwise it moves before the whole run, possibly to -1 |
| SharedAstState.NormalizeOffset | src/actionManagement/sharedASTStateCalculator.ts:255-263 | the loop computes that offset |
| SharedAstState.DefaultSelectsElementOrRoot | src/actionManagement/sharedASTStateCalculator.ts:240-271 | with an editor and an AST, the selected node is the element at the offset or, if none, the root; it throws exactly when the element lookup throws |
| SharedAstState.DefaultSelectedNodeThrows | src/actionManagement/sharedASTStateCalculator.ts:225-271 | the default provider throws exactly when the editor has no buffer, the parser throws, or the element lookup throws |
| SharedAstState.NoProviderEmptyState | src/actionManagement/sharedASTStateCalculator.ts:328-335 | without an editor provider the state is the empty record, not `null` |
| SharedAstState.CalculateStateNull | src/actionManagement/sharedASTStateCalculator.ts:337-368 | the state is `null` exactly when there is no editor, the file is not `.raml`, the cursor is at the buffer end or at the origin, or no node is selected |
| SharedAstState.CalculateStateFull | src/actionManagement/sharedASTStateCalculator.ts:370-381 | otherwise the state holds the editor, the cursor index, the node, the completion kind the classifier returned there and the AST modifier |
| SharedAstState.CalculateStateThrows | src/actionManagement/sharedASTStateCalculator.ts:326-382 | for a `.raml` editor, an exception comes exactly from selecting the node, or, once a node is selected and the cursor accepted, from a missing buffer or from the completion classifier |
| SharedAstState.GeneralAstStateCalculator.constructor | src/actionManagement/sharedASTStateCalculator.ts:287-292 | no state cached, no providers |
| SharedAstState.GeneralAstStateCalculator.Refresh | src/actionManagement/sharedASTStateCalculator.ts:312-314 | runs calculateState once and caches its result |
| SharedAstState.GeneralAstStateCalculator.Calculate | src/actionManagement/sharedASTStateCalculator.ts:297-305 | a cached state is returned without recomputation; otherwise the state is computed and cached |
| SharedAstState.GeneralAstStateCalculator.ContextCalculationStarted | src/actionManagement/sharedASTStateCalculator.ts:310-315 | computes the state only when none is cached |
| SharedAstState.GeneralAstStateCalculator.ContextCalculationFinished | src/actionManagement/sharedASTStateCalculator.ts:320-324 | drops the cached state |
| SharedAstState.GeneralAstStateCalculator.SetEditorProvider | src/actionManagement/sharedASTStateCalculator.ts:384-386 | sets the editor provider, nothing else |
| SharedAstState.GeneralAstStateCalculator.SetAstProvider | src/actionManagement/sharedASTStateCalculator.ts:388-390 | sets the AST provider, nothing else |
| SharedAstState.GeneralAstStateCalculator.SetAstModifier | src/actionManagement/sharedASTStateCalculator.ts:392-394 | sets the AST modifier, nothing else |
| SharedAstState.GeneralAstStateCalculator.GetEditor | src/actionManagement/sharedASTStateCalculator.ts:396-400 | `null` without a provider, else the provider's current editor |
| SharedAstState.CommonAstStateCalculator.Calculate | src/actionManagement/sharedASTStateCalculator.ts:418-420 | returns `null` |
| SharedAstState.CommonAstStateCalculator.GetGeneralState | src/actionManagement/sharedASTStateCalculator.ts:422-424 | forwards to the global calculator's calculate |
| SharedAstState.CommonAstStateCalculator.ContextCalculationStarted | src/actionManagement/sharedASTStateCalculator.ts:426-428 | forwards the start hook to the global calculator |
| SharedAstState.CommonAstStateCalculator.ContextCalculationFinished | src/actionManagement/sharedASTStateCalculator.ts:430-432 | forwards the finish hook to the global calculator |
| SharedAstState.CommonAstStateCalculator.GetEditor | src/actionManagement/sharedASTStateCalculator.ts:434-436 | forwards getEditor to the global calculator |
| SharedAstState.NullCalculator.Calculate | src/actionManagement/sharedASTStateCalculator.ts:213-217 | returns nothing |
| SharedAstState.SharedCalculation | src/actionManagement/sharedASTStateCalculator.ts:274-314 | calculators sharing the global instance both read what `calculateState` gives; it is computed once per calculation only when it is a non-null record, and four times (both start hooks, both reads) when it is `null` or throws; the cache is empty afterwards |
| LineUtils.SplitOnLines | src/actionManagement/utils.ts:28-31 | the match is never null: at least one line |
| LineUtils.LinesArePieces | src/actionManagement/utils.ts:28-31 | every line is a run without line terminators followed by at most one CR LF, LF or CR |
| LineUtils.SplitRoundTrip | src/actionManagement/utils.ts:28-31 | joining the lines gives the text back when it holds no U+2028 or U+2029 |
| LineUtils.OnlyLastPieceUnterminated | src/actionManagement/utils.ts:28-31 | every line but the last ends with its terminator |
| LineUtils.SplitNeverLonger | src/actionManagement/utils.ts:28-31 | for any text, also one holding U+2028 or U+2029, joining the lines is never longer than the text |
| LineUtils.SplitOfNonBlankPieces | src/actionManagement/utils.ts:28-31 | splitting a join of non-blank lines yields no blank line except an empty last one |
| LineUtils.NonBlankLines | src/actionManagement/utils.ts:84-88 | only lines whose trimmed content is non-empty are kept, each a line of the input |
| LineUtils.NonBlankLinesExact | src/actionManagement/utils.ts:84-88 | the filter keeps exactly the non-blank lines, in order: the kept lines are the input's lines at a strictly increasing sequence of indices that holds every non-blank line and no blank one |
| LineUtils.CleanEmptyLines | src/actionManagement/utils.ts:81-90 | the loop keeps the non-blank lines with their terminators and joins them |
| LineUtils.CleanedHasNoBlankLine | src/actionManagement/utils.ts:81-90 | the output has no whitespace-only line except an empty last one |
| LineUtils.CleanedNeverLonger | src/actionManagement/utils.ts:81-90 | the output is never longer than the input |
| LineUtils.CleanedIdempotent | src/actionManagement/utils.ts:81-90 | cleaning twice is cleaning once |
| UiActions.Indent | src/actions/uiActions.ts:44-58 | the spaces and tabs of the leading whitespace run, skipping CR and LF, stopping at the first other character |
| UiActions.IndentOfIndentedLine | src/actions/uiActions.ts:44-58 | a line made of pure indentation then content yields exactly that indentation |
| UiActions.Drop | src/actions/uiActions.ts:68 | `substring(n)` is the text after the first n characters, or empty beyond the end |
| UiActions.StripIndent | src/actions/uiActions.ts:60-72 | the first line is kept verbatim and each later line loses its first `indent.length` characters, whatever they are |
| UiActions.StripNothing | src/actions/uiActions.ts:63-70 | stripping zero characters keeps every line |
| UiActions.StripEmptyIndentRoundTrip | src/actions/uiActions.ts:60-72 | an empty indentation gives the text back |
| UiActions.StripIndentReversible | src/actions/uiActions.ts:60-72 | when every later line starts with the indentation, putting it back gives the text back |
| CompleteBody.LastBreakAtOrBefore | src/actions/remoteUI/completeBody/completeBody.ts:171-177 | the nearest whitespace at or before the cursor, or none |
| CompleteBody.KeyEnd | src/actions/remoteUI/completeBody/completeBody.ts:179-185 | the first space, CR, LF, tab or colon from the key start, or the end of the text |
| CompleteBody.KeyValue | src/actions/remoteUI/completeBody/completeBody.ts:168-187 | the key holds no whitespace and no colon |
| CompleteBody.GetKeyValue | src/actions/remoteUI/completeBody/completeBody.ts:168-187 | the two loops compute that key |
| CompleteBody.ScanBack | src/actions/remoteUI/completeBody/completeBody.ts:169-177 | the backward loop leaves `m` one past the nearest whitespace at or before the offset, or at the offset when there is none |
| CompleteBody.ScanForward | src/actions/remoteUI/completeBody/completeBody.ts:178-186 | the forward loop collects exactly the characters from `m` (clamped to the text) up to the first space, CR, LF, tab or colon |
| CompleteBody.BreaksKey | src/actions/remoteUI/completeBody/completeBody.ts:173 | the backward test on `charAt` holds exactly for a one-character string that is whitespace |
| CompleteBody.StopsKey | src/actions/remoteUI/completeBody/completeBody.ts:181 | the forward test on `charAt` holds exactly for a one-character string that is whitespace or a colon |
| CompleteBody.KeyStartsAfterBreakUnderCursor | src/actions/remoteUI/completeBody/completeBody.ts:171-177 | whitespace under the cursor makes the key start right after it |
| CompleteBody.KeyStartsAtCursorWithoutBreak | src/actions/remoteUI/completeBody/completeBody.ts:169-177 | with no whitespace at or before the cursor, the key starts at the cursor |
| CompleteBody.BodyKeyUnderCursor | src/actions/remoteUI/completeBody/completeBody.ts:168-187 | with the cursor anywhere on `body` of a `body:` preceded by whitespace, the key is "body" |
| JsonSchema.TopLevel | src/actions/remoteUI/completeBody/ui.ts:56-64 | the top-level schema is required and carries the draft-03 `$schema` URL |
| JsonSchema.PassKeepsRequired | src/actions/remoteUI/completeBody/ui.ts:66-79 | every value gets its `type`, "array" or its `typeof`; `required` and `$schema` are left alone |
| JsonSchema.FalsyGetsOnlyType | src/actions/remoteUI/completeBody/ui.ts:66-79 | null, false, 0 and "" get only their type, and null is an "object" |
| JsonSchema.ArrayItems | src/actions/remoteUI/completeBody/ui.ts:102-119 | from any start schema without `properties` or `items` (top level, property entry or element), an array gets `items` holding the schema of element 0 only, or `undefined` when empty; `required` and `$schema` stay |
| JsonSchema.ObjectProperties | src/actions/remoteUI/completeBody/ui.ts:81-100 | from any start schema without `properties` or `items`, a non-empty object gets one property per key, in key order, each with `required` false and its value's schema; an empty object gets none; `required` and `$schema` stay |
| JsonSchema.GenerateObject | src/actions/remoteUI/completeBody/ui.ts:56-100 | the schema of a top-level object is required, draft-03, typed "object", with one entry per key in key order |
| JsonSchema.InheritedKeyDropped | src/actions/remoteUI/completeBody/ui.ts:85-100 | as written, a key named `toString` gets no property |
| JsonSchema.GenerateAsWrittenAgrees | src/actions/remoteUI/completeBody/ui.ts:56-126 | without such key names anywhere, the generator as written and as intended agree |
| StateUtils.ItemByIdFinds | src/actions/remoteUI/stateUtils.ts:76-95 | a result has the id and is in the tree; the result is `null` exactly when no node has the id; it is the first such node in pre-order |
| StateUtils.ItemByIdIsFirstInPreOrder | src/actions/remoteUI/stateUtils.ts:76-95 | the search returns the first node of the pre-order with that id |
| StateUtils.RootMatchWins | src/actions/remoteUI/stateUtils.ts:77-79 | a root with the id is returned whatever lies below |
| StateUtils.StubKey | src/actions/remoteUI/stateUtils.ts:14-16 | property "body" forces key "application/json"; other keys pass through |
| StateUtils.NewNode | src/actions/remoteUI/stateUtils.ts:7-31 | a null parent gives `{isParentNull: true}` and nothing else; otherwise the stub is requested under the key rule |
| StateUtils.ApplyChanges | src/actions/remoteUI/stateUtils.ts:33-64 | a null parent gives `{isParentNull: true}` and nothing else; otherwise the stub added is requested under the key rule |
| StateUtils.BodyKeyForced | src/actions/remoteUI/stateUtils.ts:40-42 | both entry points make a "body" stub under "application/json", whatever key they are given |

## Findings

| source | as written | input that shows it | evidently intended | confidence | as-written member | corrected member |
|---|---|---|---|---|---|---|
| src/actions/remoteUI/completeBody/ui.ts:93-97 | `properties[propName]` on a plain object finds members inherited from Object.prototype. The entry is then written onto that shared member and never created in `properties`. | `{"toString": 1}` yields an empty `properties`. A key `__proto__` also pollutes Object.prototype; the model does not follow that part. | every own key of the object gets its entry | not executed | JsonSchema.InheritedKeyDropped | JsonSchema.ObjectProperties |

`JsonSchema.GenerateSchema` is the intended generator. `JsonSchema.GenerateSchemaAsWritten` keeps the lookup through the prototype chain.

## Left out

- I/O, the file system and `path`: the `fs` writes, `extname` (the editor's extension is a field), and the `JSON.parse`/`JSON.stringify` wrapper `generateSchema(text, mediaType)`.
- The RAML parser, `findElementAtOffset`, a custom AST provider and `determineCompletionKind` are functions of a `World` that return or throw. The parser parts of `newNode`/`applyChanges` (stub creation, `buildDetailsItem`, `setValue`, `parent.add`) are represented only by the stub request.
- Console logging: a caught exception is an `ErrorLogged` event; the message text is not modelled.
- CalculateStateThrows: exceptions from the editor provider's `getCurrentEditor` and from the editor's own methods (`getPath`, `getCursorBufferPosition`, `getText`) are not modelled; those calls always return.
- Exceptions thrown by menu contributors, by `onClick`, by the converter or by `displayUI` are not modelled. Those calls always return in the model.
- The outer `try` of `calculateCurrentActions` (lines 111 and 152) is modelled for what reaches it in practice: the TypeError an inner handler raises when it reads `message` of a thrown `null` or `undefined`. Other throws inside it (the `ExecutableAction` constructor, `Array.prototype` methods) are not modelled.
- PlainActionAlwaysReturned: stated for runs the outer handler did not end; when it did, the action is returned only if its turn came before the `null` or `undefined`, which the lemma does not state.
- The order of `for...in` over the contributor dictionary: the model uses insertion order. JavaScript puts integer-like keys first.
- Aliasing: the menu tree, the JSON schema objects and the details tree are values that each step returns updated. The in-place `push`/`splice` on aliased child arrays is not modelled as such.
- The `!existingNode.children` branch of addItemsTreeNode (src/actionManagement/contextMenuImpl.ts:131-133) cannot run, because every node is created with an empty children array. It is not modelled.
- JsonSchema.GenerateSchemaAsWritten: a `__proto__` key writes `required`, `type` and possibly `properties` onto Object.prototype. That changes later lookups and later calls. Only the dropping of the key is modelled.
- JsonSchema: the schemas of array elements after the first are computed by the source and thrown away; the model does not compute them.
- JsonSchema.ObjectProperties: stated for objects with distinct keys, which is every object JSON.parse returns.
- JavaScript numbers are reals and offsets are unbounded integers.
- UiActions.StripIndent: strings are sequences of Unicode code points, while `substring(indent.length)` counts UTF-16 code units. A later line with a character outside the Basic Multilingual Plane among its first `indent.length` units loses a different prefix: for "a", a line break, then U+1F600 and "b", with an indent of two spaces, JavaScript gives "a", a line break and "b", and the model gives "a" and a line break.
- UiActions.Drop: drops n code points where `substring(n)` drops n UTF-16 code units; the two agree only while the dropped prefix holds no character outside the Basic Multilingual Plane.
- Offsets (the cursor index, `getKeyValue`'s `charAt` positions, `NormalizedOffset`): the model counts code points where the editor and JavaScript count UTF-16 code units, so they agree only on text before the first character outside the Basic Multilingual Plane.
- `getMethodParent` and the parser-dependent actions of the repository are outside this model.
