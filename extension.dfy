/**
 * The session layer of src/extension.ts: the registry of open chart panels
 * keyed by document, the handlers that refresh a panel when its document or
 * selection changes, and the dispatch of the messages a panel posts back.
 */
module Extension {
  import opened Wrappers
  import opened Positions
  import opened Ranges
  import opened Transform

  /** A document's `vscode.Uri`; the registry is keyed by it. */
  type Uri = string

  /** A webview panel. */
  type PanelId = nat

  /** A visible text editor, as the search over the visible editors finds it. */
  type EditorId = nat

  datatype Command = TreeModeChange | NodeMouseEnter | NodeClick | NodeMouseLeave

  /** A message from a panel; treeMode is whatever value the page put there. */
  datatype Message = Message(
    command: Command,
    treeMode: ModeValue,
    anchorLineCharacterJson: Option<string>,
    activeLineCharacterJson: Option<string>)

  /** The result of getPositions: no positions at all, or both. */
  datatype PositionPair = NoPositions | Pair(anchor: Position, active: Position)

  /** JavaScript's `!s` on an optional string: missing or empty. */
  predicate Falsy(s: Option<string>) {
    s == None || s == Some("")
  }

  /**
   * getPositions. None stands for `JSON.parse` throwing on a field that is
   * not an encoded pair.
   */
  function GetPositions(message: Message): (r: Option<PositionPair>)
    ensures Falsy(message.anchorLineCharacterJson) || Falsy(message.activeLineCharacterJson) ==>
      r == Some(NoPositions)
    ensures r == Some(NoPositions) ==>
      Falsy(message.anchorLineCharacterJson) || Falsy(message.activeLineCharacterJson)
    ensures r.None? <==>
      !Falsy(message.anchorLineCharacterJson) && !Falsy(message.activeLineCharacterJson) &&
      (DecodeLineAndCharacter(message.anchorLineCharacterJson.value).None? ||
       DecodeLineAndCharacter(message.activeLineCharacterJson.value).None?)
    ensures r.Some? && r.value.Pair? ==>
      message.anchorLineCharacterJson == Some(EncodeLineAndCharacter(r.value.anchor)) &&
      message.activeLineCharacterJson == Some(EncodeLineAndCharacter(r.value.active))
  {
    var anchorJson, activeJson := message.anchorLineCharacterJson, message.activeLineCharacterJson;
    if Falsy(anchorJson) || Falsy(activeJson) then Some(NoPositions)
    else
      match (DecodeLineAndCharacter(anchorJson.value), DecodeLineAndCharacter(activeJson.value))
      case (Some(anchor), Some(active)) =>
        EncodeDecode(anchorJson.value, anchor);
        EncodeDecode(activeJson.value, active);
        Some(Pair(anchor, active))
      case _ => None
  }

  /** Fields written by the projection are read back as the positions they encode. */
  lemma GetPositionsOfEncoded(command: Command, mode: ModeValue, anchor: Position, active: Position)
    ensures GetPositions(Message(command, mode,
      Some(EncodeLineAndCharacter(anchor)), Some(EncodeLineAndCharacter(active)))) == Some(Pair(anchor, active))
  {
    DecodeEncode(anchor);
    DecodeEncode(active);
  }

  datatype EditorAction =
    | RevealRange(editor: EditorId, range: Range)
    | SetSelection(editor: EditorId, selection: Selection)
    | SetDecorations(editor: EditorId, ranges: seq<Range>)

  /**
   * The editor side of the message switch. None stands for `new vscode.Range`
   * throwing because the message carried no positions. A mode change acts on
   * no editor.
   */
  function EditorActions(command: Command, positions: PositionPair, editor: EditorId): (r: Option<seq<EditorAction>>)
    ensures command == TreeModeChange ==> r == Some([])
    ensures command == NodeMouseLeave ==> r == Some([SetDecorations(editor, [])])
    ensures command == NodeClick || command == NodeMouseEnter ==> (r.Some? <==> positions.Pair?)
    ensures command == NodeClick && positions.Pair? ==>
      r == Some([RevealRange(editor, MakeRange(positions.anchor, positions.active)),
                 SetSelection(editor, Selection(positions.anchor, positions.active))])
    ensures command == NodeMouseEnter && positions.Pair? ==>
      r == Some([SetDecorations(editor, [MakeRange(positions.anchor, positions.active)])])
  {
    match command
    case TreeModeChange => Some([])
    case NodeClick =>
      if positions.NoPositions? then None
      else
        Some([RevealRange(editor, MakeRange(positions.anchor, positions.active)),
              SetSelection(editor, Selection(positions.anchor, positions.active))])
    case NodeMouseEnter =>
      if positions.NoPositions? then None
      else Some([SetDecorations(editor, [MakeRange(positions.anchor, positions.active)])])
    case NodeMouseLeave => Some([SetDecorations(editor, [])])
  }

  /**
   * Clicking a chart node reveals and selects exactly that node's source
   * range; hovering it decorates exactly that range.
   */
  lemma NodeMessagesTargetNode(
    formatKind: KindFormatter, text: string, selections: Option<seq<Selection>>,
    node: Node, children: seq<ChartStructure>, editor: EditorId)
    requires node.pos <= node.end
    ensures var c := ChartOf(formatKind, text, selections, node, children);
      var anchor, active := LineAndCharacterOf(text, node.pos), LineAndCharacterOf(text, node.end);
      var click := Message(NodeClick, ModeUndefined,
        Some(c.text.anchorLineCharacterJson), Some(c.text.activeLineCharacterJson));
      var enter := Message(NodeMouseEnter, ModeUndefined,
        Some(c.text.anchorLineCharacterJson), Some(c.text.activeLineCharacterJson));
      GetPositions(click) == Some(Pair(anchor, active)) &&
      GetPositions(enter) == Some(Pair(anchor, active)) &&
      EditorActions(NodeClick, Pair(anchor, active), editor) ==
        Some([RevealRange(editor, NodeRange(text, node)), SetSelection(editor, Selection(anchor, active))]) &&
      EditorActions(NodeMouseEnter, Pair(anchor, active), editor) ==
        Some([SetDecorations(editor, [NodeRange(text, node)])])
  {
    var anchor, active := LineAndCharacterOf(text, node.pos), LineAndCharacterOf(text, node.end);
    GetPositionsOfEncoded(NodeClick, ModeUndefined, anchor, active);
    GetPositionsOfEncoded(NodeMouseEnter, ModeUndefined, anchor, active);
    NodeRangeInOrder(text, node);
  }

  /** The option labels of the page's mode picker, which it posts as the mode. */
  function ModeLabel(m: TreeMode): string {
    match m
    case ForEachChild => "forEachChild"
    case GetChildren => "getChildren"
  }

  /**
   * As written, the label the page posts is stored as the mode unchanged, and
   * getTreeConfig's switch, which compares with the enum's numbers, matches
   * neither case: the refreshed panel gets no tree.
   */
  lemma PostedLabelMatchesNoCase(m: TreeMode)
    ensures SwitchedTraversal(ModeString(ModeLabel(m))) == None
  {
  }

  /**
   * The intended reading of a posted mode: an enum number as before, or one
   * of the picker's labels.
   */
  function ModeOfPosted(v: ModeValue): (r: Option<TreeMode>)
    ensures SwitchedTraversal(v).Some? ==> r == SwitchedTraversal(v)
    ensures r.Some? ==> v == ModeNumber(Ordinal(r.value)) || v == ModeString(ModeLabel(r.value))
  {
    match v
    case ModeString(s) =>
      if s == ModeLabel(ForEachChild) then Some(ForEachChild)
      else if s == ModeLabel(GetChildren) then Some(GetChildren)
      else None
    case _ => SwitchedTraversal(v)
  }

  /** Under the intended reading each picker label, and each enum number, names its mode. */
  lemma ModeOfPostedInvertsLabel(m: TreeMode)
    ensures ModeOfPosted(ModeString(ModeLabel(m))) == Some(m)
    ensures ModeOfPosted(ModeNumber(Ordinal(m))) == Some(m)
  {
  }

  /**
   * The value the intended handler stores: the enum number of the mode the
   * posted value names, or the posted value itself when it names none.
   */
  function IntendedMode(v: ModeValue): (r: ModeValue)
    ensures ModeOfPosted(v).Some? ==> SwitchedTraversal(r) == ModeOfPosted(v)
    ensures ModeOfPosted(v).None? ==> r == v
  {
    match ModeOfPosted(v)
    case Some(m) => ModeNumber(Ordinal(m))
    case None => v
  }

  /** What a handler did: nothing, a re-render of a panel, editor actions, or it threw. */
  datatype Outcome =
    | Unchanged
    | Rendered(panel: PanelId, uri: Uri, treeMode: ModeValue, selections: Option<seq<Selection>>, text: string)
    | Acted(actions: seq<EditorAction>)
    | Threw

  /**
   * Indexing an empty selection list gives undefined, and isEqual on it or
   * with it throws.
   */
  predicate FirstSelectionThrows(stored: Option<seq<Selection>>, incoming: seq<Selection>) {
    stored.Some? && (|stored.value| == 0 || |incoming| == 0)
  }

  /** A stored list exists and its first selection differs from the new first one. */
  predicate FirstSelectionChanged(stored: Option<seq<Selection>>, incoming: seq<Selection>) {
    stored.Some? && |stored.value| > 0 && |incoming| > 0 && !IsEqual(stored.value[0], incoming[0])
  }

  /** The editor active when the visualize command runs. */
  datatype ActiveEditor = ActiveEditor(uri: Uri, text: string, selections: seq<Selection>)

  /** PanelConfig: one open panel, with the state its handlers update in place. */
  class PanelConfig {
    const panel: PanelId
    /** The document uri the panel's handlers captured. */
    const uri: Uri
    /** Whatever value was last stored as the mode; getTreeConfig's switch reads it. */
    var treeMode: ModeValue
    var selections: Option<seq<Selection>>

    constructor (panel: PanelId, uri: Uri, treeMode: ModeValue, selections: Option<seq<Selection>>)
      ensures this.panel == panel && this.uri == uri
      ensures this.treeMode == treeMode && this.selections == selections
    {
      this.panel := panel;
      this.uri := uri;
      this.treeMode := treeMode;
      this.selections := selections;
    }

    /**
     * The panel's message handler: positions are read and the editor looked up
     * before the switch, so a malformed field or a document that is not visible
     * makes every command throw. A mode change stores the posted value as the
     * mode, unchanged, and re-renders this panel with the current document text.
     */
    method OnDidReceiveMessage(message: Message, text: string, editor: Option<EditorId>) returns (r: Outcome)
      modifies this
      ensures selections == old(selections)
      ensures var positions := GetPositions(message);
        if positions.None? || editor.None? then
          r == Threw && treeMode == old(treeMode)
        else if message.command == TreeModeChange then
          treeMode == message.treeMode && r == Rendered(panel, uri, message.treeMode, selections, text)
        else
          treeMode == old(treeMode) &&
          r == match EditorActions(message.command, positions.value, editor.value)
               case None => Threw
               case Some(actions) => Acted(actions)
    {
      var positions := GetPositions(message);
      if positions.None? || editor.None? {
        return Threw;
      }
      match message.command
      case TreeModeChange =>
        treeMode := message.treeMode;
        r := Rendered(panel, uri, treeMode, selections, text);
      case _ =>
        var actions := EditorActions(message.command, positions.value, editor.value);
        r := if actions.None? then Threw else Acted(actions.value);
    }

    /**
     * The message handler as evidently intended: identical, except that a mode
     * change stores the enum number of the mode the posted label names, so
     * the switch in getTreeConfig matches it.
     */
    method OnDidReceiveIntendedMessage(message: Message, text: string, editor: Option<EditorId>) returns (r: Outcome)
      modifies this
      ensures selections == old(selections)
      ensures var positions := GetPositions(message);
        if positions.None? || editor.None? then
          r == Threw && treeMode == old(treeMode)
        else if message.command == TreeModeChange then
          treeMode == IntendedMode(message.treeMode) &&
          r == Rendered(panel, uri, IntendedMode(message.treeMode), selections, text)
        else
          treeMode == old(treeMode) &&
          r == match EditorActions(message.command, positions.value, editor.value)
               case None => Threw
               case Some(actions) => Acted(actions)
    {
      var positions := GetPositions(message);
      if positions.None? || editor.None? {
        return Threw;
      }
      match message.command
      case TreeModeChange =>
        treeMode := IntendedMode(message.treeMode);
        r := Rendered(panel, uri, treeMode, selections, text);
      case _ =>
        var actions := EditorActions(message.command, positions.value, editor.value);
        r := if actions.None? then Threw else Acted(actions.value);
    }
  }

  /** The state `activate` keeps: the map from document uri to its open panel. */
  class Visualizer {
    var panels: map<Uri, PanelConfig>

    /** Every entry is filed under the uri its panel's handlers captured. */
    ghost predicate Valid()
      reads this
    {
      forall u :: u in panels ==> panels[u].uri == u
    }

    constructor ()
      ensures Valid() && panels == map[]
    {
      panels := map[];
    }

    /**
     * The visualize command: without an active editor nothing happens;
     * otherwise a new panel for its document is rendered in getChildren mode
     * and registered, replacing any panel already open for that document.
     */
    method Visualize(active: Option<ActiveEditor>, panel: PanelId) returns (r: Outcome, config: PanelConfig?)
      requires Valid()
      modifies this
      ensures Valid()
      ensures active.None? ==> r == Unchanged && config == null && panels == old(panels)
      ensures active.Some? ==>
        config != null && fresh(config) &&
        config.panel == panel && config.uri == active.value.uri &&
        config.treeMode == ModeNumber(Ordinal(GetChildren)) && config.selections == Some(active.value.selections) &&
        panels == old(panels)[active.value.uri := config] &&
        r == Rendered(panel, active.value.uri, ModeNumber(Ordinal(GetChildren)), Some(active.value.selections), active.value.text)
    {
      if active.None? {
        return Unchanged, null;
      }
      var editor := active.value;
      var treeMode := ModeNumber(Ordinal(GetChildren));
      r := Rendered(panel, editor.uri, treeMode, Some(editor.selections), editor.text);
      config := new PanelConfig(panel, editor.uri, treeMode, Some(editor.selections));
      panels := panels[editor.uri := config];
    }

    /** A document edit re-renders the document's panel, if it has one, with its stored mode and selections. */
    method OnDidChangeTextDocument(uri: Uri, text: string) returns (r: Outcome)
      ensures uri !in panels ==> r == Unchanged
      ensures uri in panels ==>
        r == Rendered(panels[uri].panel, uri, panels[uri].treeMode, panels[uri].selections, text)
    {
      if uri in panels {
        var config := panels[uri];
        r := Rendered(config.panel, uri, config.treeMode, config.selections, text);
      } else {
        r := Unchanged;
      }
    }

    /**
     * A selection change stores the new selections and re-renders only when a
     * stored list exists whose first selection differs from the new first one.
     */
    method OnDidChangeTextEditorSelection(uri: Uri, text: string, selections: seq<Selection>) returns (r: Outcome)
      modifies if uri in panels then {panels[uri]} else {}
      ensures uri !in panels ==> r == Unchanged
      ensures uri in panels ==>
        var config := panels[uri];
        config.treeMode == old(config.treeMode) &&
        if FirstSelectionThrows(old(config.selections), selections) then
          r == Threw && config.selections == old(config.selections)
        else
          config.selections == Some(selections) &&
          r == if FirstSelectionChanged(old(config.selections), selections)
               then Rendered(config.panel, uri, config.treeMode, Some(selections), text)
               else Unchanged
    {
      if uri !in panels {
        return Unchanged;
      }
      var config := panels[uri];
      if config.selections.Some? {
        var stored := config.selections.value;
        if |stored| == 0 || |selections| == 0 {
          return Threw;
        }
        if !IsEqual(stored[0], selections[0]) {
          config.selections := Some(selections);
          return Rendered(config.panel, uri, config.treeMode, config.selections, text);
        }
      }
      config.selections := Some(selections);
      r := Unchanged;
    }

    /**
     * Closing a panel deletes the entry under the uri that panel captured, so
     * the closed panel is no longer reachable from the registry.
     */
    method OnDidDispose(config: PanelConfig)
      requires Valid()
      modifies this
      ensures Valid()
      ensures panels == old(panels) - {config.uri}
      ensures forall u :: u in panels ==> panels[u] != config
    {
      panels := panels - {config.uri};
    }
  }

  /** After its panel is closed, edits and selection changes in a document do nothing. */
  method DisposedPanelIgnoresEvents(
    v: Visualizer, config: PanelConfig, text: string, selections: seq<Selection>) returns (edited: Outcome, selected: Outcome)
    requires v.Valid()
    modifies v
    ensures edited == Unchanged && selected == Unchanged
  {
    v.OnDidDispose(config);
    edited := v.OnDidChangeTextDocument(config.uri, text);
    selected := v.OnDidChangeTextEditorSelection(config.uri, text, selections);
  }

  /**
   * Visualizing a document twice replaces the first panel's entry; closing the
   * first panel then deletes the second panel's entry, since both captured
   * the same uri, and later edits no longer reach the second panel.
   */
  method ClosingReplacedPanelUnregistersNewer(
    v: Visualizer, editor: ActiveEditor, first: PanelId, second: PanelId, text: string) returns (r: Outcome)
    requires v.Valid()
    modifies v
    ensures r == Unchanged
  {
    var _, older := v.Visualize(Some(editor), first);
    var _, newer := v.Visualize(Some(editor), second);
    v.OnDidDispose(older);
    r := v.OnDidChangeTextDocument(editor.uri, text);
  }

  /**
   * As written, a mode picked in the panel is stored as its label, and both
   * the immediate re-render and the next edit's re-render ask getTreeConfig
   * for a mode its switch does not match: no tree is drawn.
   */
  method PickedModeRendersNoTree(
    v: Visualizer, config: PanelConfig, m: TreeMode, text: string, editor: EditorId,
    formatKind: KindFormatter, sourceFile: Node) returns (picked: Outcome, edited: Outcome, tree: Option<ChartStructure>)
    requires v.Valid() && config.uri in v.panels && v.panels[config.uri] == config
    modifies config
    ensures picked == Rendered(config.panel, config.uri, ModeString(ModeLabel(m)), config.selections, text)
    ensures edited == picked
    ensures tree == None
  {
    picked := config.OnDidReceiveMessage(Message(TreeModeChange, ModeString(ModeLabel(m)), None, None), text, Some(editor));
    edited := v.OnDidChangeTextDocument(config.uri, text);
    PostedLabelMatchesNoCase(m);
    tree := GetTreeConfig(formatKind, sourceFile, text, edited.treeMode, edited.selections);
  }

  /**
   * Under the intended handler, a mode picked in the panel is the mode the
   * immediate re-render and the next edit's re-render draw the tree in.
   */
  method ModeChangeThenEdit(
    v: Visualizer, config: PanelConfig, m: TreeMode, text: string, editor: EditorId,
    formatKind: KindFormatter, sourceFile: Node) returns (picked: Outcome, edited: Outcome, tree: Option<ChartStructure>)
    requires v.Valid() && config.uri in v.panels && v.panels[config.uri] == config
    modifies config
    ensures picked == Rendered(config.panel, config.uri, ModeNumber(Ordinal(m)), config.selections, text)
    ensures edited == picked
    ensures tree == Some(Project(formatKind, text, m, config.selections, sourceFile))
  {
    ModeOfPostedInvertsLabel(m);
    picked := config.OnDidReceiveIntendedMessage(Message(TreeModeChange, ModeString(ModeLabel(m)), None, None), text, Some(editor));
    edited := v.OnDidChangeTextDocument(config.uri, text);
    tree := GetTreeConfig(formatKind, sourceFile, text, edited.treeMode, edited.selections);
  }
}
