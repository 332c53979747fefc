# SourceFileVisualizer, modelled in Dafny

SourceFileVisualizer is a VS Code extension that shows the TypeScript syntax
tree of the open document as a chart next to it. This project models its core:

- **The projection** (`src/transform.ts`). A syntax tree becomes a chart tree
  with one chart node per visited syntax node. The children come from either
  of TypeScript's enumerations, `getChildren()` or `ts.forEachChild`. Each
  chart node carries:
  - the kind's name;
  - a `pos: P, end: E` title;
  - an excerpt of at most 50 source characters, with line breaks escaped;
  - the JSON text of the `{line, character}` positions of its two offsets;
  - the class `selectedNode` when an editor selection lies wholly inside the
    node's range, and `nodeItem` otherwise.
- **The session layer** (`src/extension.ts`). A registry maps each document
  uri to its open panel, which holds a traversal mode and the last selections
  seen. Edits and selection changes re-render a document's panel. Closing a
  panel removes its entry. The messages a panel posts either change the mode
  or drive the editor: reveal and select, decorate, clear the decoration.
- **The prototype** (`transform.ts`, function `treeConfig`). The first version
  of the projection: `getChildren` only, a highlight for the nodes that cover
  one fixed offset, and no escaping.

Modules:
- `Wrappers`: Option.
- `Decimal`: printing and parsing of decimal numerals.
- `Positions`: offset to line and character, and the JSON pair codec.
- `Ranges`: VS Code's Range and Selection.
- `Transform`, `Extension`, `Prototype`: the three source files.

Events are modelled as methods that return an `Outcome`:
- `Rendered(panel, uri, mode, selections, text)`: the panel was re-rendered
  from `getTreeConfig` with these inputs;
- `Acted(actions)`: the editor actions taken;
- `Threw`: the handler threw before it changed anything;
- `Unchanged`: nothing happened.

The projection needs a parsed tree, so it is stated separately, for any tree
(`Transform.GetTreeConfig`).

Behaviour worth noting:
- The excerpt is cut to 50 characters before escaping. It can therefore be
  longer than 50 (`Transform.ExcerptCanExceedLimit`).
- A second visualize for an open document replaces the registry entry. No
  "already open" error is raised.
- Refreshes carry no sequence number and have no staleness check.
- A selection change re-renders only when stored selections exist and
  their first element differs. Selections are compared as ranges: direction
  is ignored, as `Selection.isEqual` is inherited from `Range`.
- A malformed position field makes `JSON.parse` throw inside the message
  handler. The whole command is then dropped, and so is a command for a
  document that no visible editor shows. This includes a mode change.
- A mode change stores whatever value the page posted, and re-renders. The
  page posts the picker's labels, which the switch never matches (see
  "## Findings").

Behaviour of the code as written that the model keeps:
- Closing a panel deletes the entry under the uri it captured. If the document
  was visualized again meanwhile, that entry is the newer panel's, and that
  panel gets no more refreshes (`Extension.ClosingReplacedPanelUnregistersNewer`).

## Model

| member | source | states |
|---|---|---|
| `Decimal.NatToString` | src/transform.ts:44 | the printed numeral is canonical: digits only, no leading zero |
| `Decimal.NumeralOfDigitsValue` | src/extension.ts:156-157 | a canonical numeral is the printed form of its own value, so decimal parsing inverts printing |
| `Positions.LastLineStart` | src/transform.ts:22-23 | the start of the current line follows the last line break before the offset, with no line break after it |
| `Positions.LineAndCharacterMonotone` | src/transform.ts:22-23 | a later offset has a lexicographically later line and character |
| `Positions.LineAndCharacterOrder` | src/transform.ts:37-38 | position order equals offset order, in both directions |
| `Positions.DecodeEncode` | src/transform.ts:46-47 | decoding the JSON text of a line and character gives back the same two integers |
| `Positions.EncodeDecode` | src/extension.ts:156-161 | the decoder accepts only encoded pairs: whatever it decodes re-encodes to the same text |
| `Ranges.MakeRange` | src/transform.ts:28 | a constructed range is ordered and has the two given ends, swapped if needed |
| `Ranges.ContainsIsLexicographic` | src/transform.ts:30 | `contains` means the range starts no later and ends no earlier than the selection |
| `Transform.SwitchedTraversal` | src/transform.ts:84-91 | the switch picks a traversal exactly for the enum's numbers 0 and 1 |
| `Transform.Kids` | src/transform.ts:59-69 | the `getChildren` mode visits the node's `getChildren()` list and the `forEachChild` mode its `ts.forEachChild` list |
| `Transform.Substring` | src/transform.ts:45 | for in-range offsets, `substring` is the slice between them |
| `Transform.Prefix` | src/transform.ts:45 | `substr(0, n)` keeps min(n, length) leading characters |
| `Transform.EscapeNewlines` | src/transform.ts:45 | no line break is left; the length grows by one per line break; text without line breaks is unchanged |
| `Transform.GetChartStructure` | src/transform.ts:18-54 | the record for a node; class `selectedNode` exactly when some selection lies wholly inside the node's range, else `nodeItem` |
| `Transform.TreeConfigGetChildren` | src/transform.ts:56-64 | the result is the projection over `getChildren`, a function of text, tree and selections only |
| `Transform.TreeConfigForEachChild` | src/transform.ts:66-74 | the result is the projection over `forEachChild`, a function of text, tree and selections only |
| `Transform.GetTreeConfig` | src/transform.ts:76-94 | from the root: the `forEachChild` projection for mode 0, `getChildren` for 1, no tree for any other value |
| `Transform.ProjectAt` | src/transform.ts:56-74 | the chart has a node at exactly the child paths the traversal has, and it is that syntax node's projection: same shape, order and count |
| `Transform.ProjectedNode` | src/transform.ts:40-53 | at every depth: the kind name, a title that parses back to pos and end, the escaped cut, anchor/active fields that decode to the offsets' positions, and the class given by containment |
| `Transform.NoSelectionsNoHighlight` | src/transform.ts:19-20 | with no selections, or an empty list, every chart node is `nodeItem` |
| `Transform.TitleRoundTrip` | src/transform.ts:44 | the title `pos: P, end: E` parses back to the node's two offsets |
| `Transform.ExcerptBounds` | src/transform.ts:45 | no line break in the excerpt; length = cut length + line breaks in the cut; cut at most 50; for an in-text node the cut is the first min(50, end - pos) characters of its text |
| `Transform.ExcerptCanExceedLimit` | src/transform.ts:45 | a node of 50 line breaks has a 100-character excerpt |
| `Transform.NodeRangeInOrder` | src/transform.ts:25-28 | for pos <= end, the node's range runs from the pos position to the end position, unswapped |
| `Transform.ContainsIffOffsets` | src/transform.ts:30 | for selections given by offsets, containment holds exactly when the node covers both ends' offsets |
| `Transform.OverlapIsNotContainment` | src/transform.ts:30 | a selection that overlaps a node but runs past its end does not highlight it |
| `Extension.GetPositions` | src/extension.ts:151-163 | no positions exactly when a field is missing or empty; otherwise `JSON.parse` throws exactly when a field is not an encoded pair; any positions returned are exactly what the fields encode |
| `Extension.GetPositionsOfEncoded` | src/extension.ts:156-161 | encoded fields are read back as the same anchor and active positions |
| `Extension.EditorActions` | src/extension.ts:114-123 | click reveals anchor..active and selects (anchor, active); enter decorates exactly that one range; leave clears the decorations; both throw without positions |
| `Extension.NodeMessagesTargetNode` | src/extension.ts:114-120 | clicking a chart node reveals and selects that node's source range; hovering decorates exactly that range |
| `Extension.PostedLabelMatchesNoCase` | src/extension.ts:111 | as written, a mode label posted by the page picks no traversal |
| `Extension.ModeOfPosted` | src/extension.ts:111 | the intended reading of a posted mode: the switch's enum numbers as before, plus the picker's labels |
| `Extension.ModeOfPostedInvertsLabel` | src/extension.ts:220-225 | under the intended reading, each picker label, and each enum number, names its mode |
| `Extension.IntendedMode` | src/extension.ts:111 | the intended stored mode: the enum number the switch matches for a value that names a mode, the posted value itself otherwise |
| `Extension.PanelConfig.constructor` | src/extension.ts:137-141 | the config holds its panel, its uri, mode and selections |
| `Extension.PanelConfig.OnDidReceiveMessage` | src/extension.ts:106-135 | the command throws on a malformed field or a missing editor; a mode change stores the posted value unchanged and re-renders with it; other commands give the editor actions; selections are untouched |
| `Extension.PanelConfig.OnDidReceiveIntendedMessage` | src/extension.ts:106-135 | the corrected handler: as `OnDidReceiveMessage`, except that a mode change stores and renders the intended mode |
| `Extension.Visualizer.constructor` | src/extension.ts:31 | the registry starts empty |
| `Extension.Visualizer.Visualize` | src/extension.ts:72-144 | no active editor: nothing; otherwise a fresh panel in `getChildren` mode (enum number 1) with the editor's selections is rendered and registered, overwriting any entry for the uri |
| `Extension.Visualizer.OnDidChangeTextDocument` | src/extension.ts:38-43 | unregistered uri: nothing; registered: re-render with the stored mode and selections and the new text |
| `Extension.Visualizer.OnDidChangeTextEditorSelection` | src/extension.ts:46-58 | the new selections are stored; re-render only when stored selections exist and their first differs; an empty list makes it throw; unregistered uri: nothing |
| `Extension.Visualizer.OnDidDispose` | src/extension.ts:102-104 | the entry under the panel's uri is removed and nothing else changes; the closed panel is no longer in the registry |
| `Extension.DisposedPanelIgnoresEvents` | src/extension.ts:39-48 | after a close, edits and selection changes for that uri do nothing |
| `Extension.ClosingReplacedPanelUnregistersNewer` | src/extension.ts:102-143 | after a second visualize, closing the first panel stops refreshes of the second |
| `Extension.PickedModeRendersNoTree` | src/extension.ts:110-113 | as written, after a pick the immediate re-render and the next edit's both carry the posted label, for which getTreeConfig gives no tree |
| `Extension.ModeChangeThenEdit` | src/extension.ts:110-113 | with the intended handler, a picked mode is rendered at once and by the next edit, and getTreeConfig gives that mode's projection |
| `Prototype.ClassOf` | transform.ts:21 | `strongNode` exactly when pos <= offset <= end, else `nodeItem` |
| `Prototype.TreeConfig` | transform.ts:7-24 | the result is the prototype projection at offset -1 |
| `Prototype.ConfigAtPath` | transform.ts:8-12 | the prototype tree has the `getChildren` shape, node for node |
| `Prototype.ScriptHighlightsNothing` | transform.ts:5 | with the offset at -1, no node is strong |
| `Prototype.AgreesWithProjection` | transform.ts:14-19 | same shape, names and titles as the extension's `getChildren` projection; escaping the prototype excerpt gives the extension's |
| `Prototype.CaretHighlightAgrees` | transform.ts:21 | a node is strong for offset p exactly when the extension selects it for a caret at p |

## Findings

| source | as written | input that shows it | evidently intended | confidence | as-written member | corrected member |
|---|---|---|---|---|---|---|
| src/extension.ts:111 | the mode picker posts its option label (src/extension.ts:179-181, 220-225), line 111 stores that string as the mode, and getTreeConfig's switch (src/transform.ts:84-91) compares it with the numbers 0 and 1, so no case matches and the panel gets no tree | message `{command: 'treeModeChange', treeMode: 'forEachChild'}` | the picked label selects that traversal | high; not executed | `Extension.PickedModeRendersNoTree` | `Extension.ModeChangeThenEdit` |

The registry's handler, `Extension.PanelConfig.OnDidReceiveMessage`, models
line 111 as written. `Extension.PostedLabelMatchesNoCase` shows that the
switch matches no label. The corrected handler,
`Extension.PanelConfig.OnDidReceiveIntendedMessage`, stores
`Extension.IntendedMode` of the posted value. That is the enum number of the
mode `Extension.ModeOfPosted` reads from the value. A value that names no mode
is stored unchanged, as before, and the panel is still re-rendered.

## Left out

- The TypeScript parser (`ts.createSourceFile`) is not modelled. The parsed
  tree is an input `Node` with both child lists.
- `ts.Debug.formatSyntaxKind` is not modelled. It is a caller-supplied total
  function from kind to name.
- Transform.GetTreeConfig: returns the chart tree, not its `JSON.stringify`
  text (src/transform.ts:93). JSON of the whole tree is a library matter.
- `JSON.parse` in general is not modelled. The decoder reads only the text
  `JSON.stringify` writes for a pair. Other JSON, such as added whitespace or
  reordered keys, counts as malformed, although `JSON.parse` would accept it.
- Line breaks: only `\n` counts. TypeScript also breaks lines at `\r\n`, `\r`,
  U+2028 and U+2029.
- Offsets are indices into a sequence of characters. JavaScript counts UTF-16
  code units, so the two differ for characters outside the Basic
  Multilingual Plane.
- Asynchrony: each refresh, and the visualize command, is one atomic step.
  Events that arrive during the `await` before a panel is registered are not
  modelled. Neither is the second read of the mode when the page is written
  (src/extension.ts:68).
- The VS Code API surface: webview creation, resource uris, the decoration
  type, and what `revealRange` and selection assignment do on screen. Editor
  actions are recorded values. The search over the visible editors is an
  input: the editor found, or none.
- `getWebviewContent` (the HTML page and the Treant chart) is UI only. Its
  mode picker appears only through the labels it posts.
- Document identity is a value. The source's `Map` compares `Uri` objects by
  identity, and VS Code keeps one `Uri` object per open document, so the two
  agree while a document stays open.
- Message commands are the four named ones. No other command string is
  modelled, and the page sends no other.
- File I/O in transform.ts (lines 26-34) and the sample input `sourceFile.ts`.
- `deactivate` is empty.
- Extension.PanelConfig.OnDidReceiveIntendedMessage: it does not do what the
  code does. It is the corrected reading of src/extension.ts:111 from
  "## Findings", and `Extension.ModeChangeThenEdit` is proved about it.
- Extension.ModeOfPosted: it defines only that corrected reading of a posted
  mode.
- Extension.IntendedMode: it defines only the mode the corrected handler
  stores.
