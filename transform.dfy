/**
 * The projection of src/transform.ts: a syntax tree becomes a chart tree for
 * the Treant library, one chart node per visited syntax node, under either of
 * TypeScript's two child enumerations.
 */
module Transform {
  import opened Wrappers
  import opened Decimal
  import opened Positions
  import opened Ranges

  /** The numeric tag of a syntax node. */
  type SyntaxKind = nat

  /** `ts.Debug.formatSyntaxKind`: the display name of a kind, supplied by the caller. */
  type KindFormatter = SyntaxKind -> string

  /**
   * A parsed syntax node: its kind, its offsets into the text (pos includes
   * leading trivia) and its children as `node.getChildren()` and as
   * `ts.forEachChild` enumerate them. The two lists need not agree.
   */
  datatype Node = Node(kind: SyntaxKind, pos: nat, end: nat, children: seq<Node>, forEachChildren: seq<Node>)

  datatype TreeMode = ForEachChild | GetChildren

  /** The number each TreeMode member stands for at run time (a numeric enum). */
  function Ordinal(m: TreeMode): int {
    match m
    case ForEachChild => 0
    case GetChildren => 1
  }

  /** A run-time value that a variable declared as TreeMode can hold. */
  datatype ModeValue = ModeNumber(n: int) | ModeString(s: string) | ModeUndefined

  /**
   * The `switch` of getTreeConfig: strict equality with the enum's two
   * numbers; any other value matches no case.
   */
  function SwitchedTraversal(v: ModeValue): (r: Option<TreeMode>)
    ensures r.Some? ==> v == ModeNumber(Ordinal(r.value))
    ensures v == ModeNumber(0) || v == ModeNumber(1) ==> r.Some?
  {
    if v == ModeNumber(0) then Some(ForEachChild)
    else if v == ModeNumber(1) then Some(GetChildren)
    else None
  }

  /** The children a traversal visits, in order. */
  function Kids(node: Node, mode: TreeMode): (r: seq<Node>)
    ensures mode == GetChildren ==> r == node.children
    ensures mode == ForEachChild ==> r == node.forEachChildren
  {
    match mode
    case ForEachChild => node.forEachChildren
    case GetChildren => node.children
  }

  datatype ChartText = ChartText(
    name: string,
    title: string,
    desc: string,
    anchorLineCharacterJson: string,
    activeLineCharacterJson: string)

  datatype ChartStructure = ChartStructure(text: ChartText, htmlClass: string, children: seq<ChartStructure>)

  const SelectedNode := "selectedNode"
  const NodeItem := "nodeItem"
  const ExcerptLength := 50

  function Clamp(i: int, n: nat): (r: nat)
    ensures r <= n
  {
    if i < 0 then 0 else if i > n then n else i
  }

  /** JavaScript `substring`: both ends clamped to the string, swapped when out of order. */
  function Substring(s: string, start: int, end: int): (r: string)
    ensures 0 <= start <= end <= |s| ==> r == s[start..end]
  {
    var a, b := Clamp(start, |s|), Clamp(end, |s|);
    if a <= b then s[a..b] else s[b..a]
  }

  /** JavaScript `substr(0, n)`: the first n characters, or all of a shorter string. */
  function Prefix(s: string, n: nat): (r: string)
    ensures |r| == if |s| < n then |s| else n
    ensures r <= s
  {
    if |s| < n then s else s[..n]
  }

  /** `replace(/\n/g, '\\n')`: every line break becomes a backslash followed by 'n'. */
  function EscapeNewlines(s: string): (r: string)
    ensures '\n' !in r
    ensures |r| == |s| + CountLineBreaks(s)
    ensures '\n' !in s ==> r == s
  {
    if s == [] then []
    else EscapeNewlines(s[..|s| - 1]) + (if s[|s| - 1] == '\n' then "\\n" else [s[|s| - 1]])
  }

  /** The source text of a node cut to its first 50 characters, before escaping. */
  function Cut(text: string, node: Node): string {
    Prefix(Substring(text, node.pos, node.end), ExcerptLength)
  }

  function Excerpt(text: string, node: Node): string {
    EscapeNewlines(Cut(text, node))
  }

  const TitlePos := "pos: "
  const TitleEnd := ", end: "

  function Title(node: Node): string {
    TitlePos + NatToString(node.pos) + TitleEnd + NatToString(node.end)
  }

  /** Reads a title back into the two offsets it was made from. */
  function ParseTitle(title: string): Option<(nat, nat)> {
    match ParseField(title, TitlePos)
    case None => None
    case Some((pos, rest)) =>
      match ParseField(rest, TitleEnd)
      case None => None
      case Some((end, tail)) => if tail == [] then Some((pos, end)) else None
  }

  /** The node's range in the editor: the positions of its two offsets, as a vscode.Range. */
  function NodeRange(text: string, node: Node): Range {
    MakeRange(LineAndCharacterOf(text, node.pos), LineAndCharacterOf(text, node.end))
  }

  /** Some selection lies wholly inside the node's range. */
  predicate IsSelected(text: string, node: Node, selections: Option<seq<Selection>>) {
    selections.Some? &&
    exists i :: 0 <= i < |selections.value| && Contains(NodeRange(text, node), selections.value[i])
  }

  /** The text fields of a node's chart record. */
  function NodeText(formatKind: KindFormatter, text: string, node: Node): ChartText {
    ChartText(
      formatKind(node.kind),
      Title(node),
      Excerpt(text, node),
      EncodeLineAndCharacter(LineAndCharacterOf(text, node.pos)),
      EncodeLineAndCharacter(LineAndCharacterOf(text, node.end)))
  }

  function NodeClass(text: string, node: Node, selections: Option<seq<Selection>>): string {
    if IsSelected(text, node, selections) then SelectedNode else NodeItem
  }

  /** The chart record for one node, given its already projected children. */
  function ChartOf(
    formatKind: KindFormatter, text: string, selections: Option<seq<Selection>>,
    node: Node, children: seq<ChartStructure>): ChartStructure
  {
    ChartStructure(NodeText(formatKind, text, node), NodeClass(text, node, selections), children)
  }

  /** The whole projection: depth first, children in enumeration order. */
  function Project(
    formatKind: KindFormatter, text: string, mode: TreeMode,
    selections: Option<seq<Selection>>, node: Node): ChartStructure
    decreases node
  {
    var kids := Kids(node, mode);
    ChartOf(formatKind, text, selections, node,
      seq(|kids|, i requires 0 <= i < |kids| => Project(formatKind, text, mode, selections, kids[i])))
  }

  /** A node's projection is its record over the projections of its children. */
  lemma ProjectOfChildren(
    formatKind: KindFormatter, text: string, mode: TreeMode,
    selections: Option<seq<Selection>>, node: Node, children: seq<ChartStructure>)
    requires |children| == |Kids(node, mode)|
    requires forall j :: 0 <= j < |children| ==>
      children[j] == Project(formatKind, text, mode, selections, Kids(node, mode)[j])
    ensures Project(formatKind, text, mode, selections, node) == ChartOf(formatKind, text, selections, node, children)
  {
    var kids := Kids(node, mode);
    assert children == seq(|kids|, i requires 0 <= i < |kids| => Project(formatKind, text, mode, selections, kids[i]));
  }

  /** getChartStructure: the loop over the selections, then the record. */
  method GetChartStructure(
    formatKind: KindFormatter, text: string, node: Node,
    children: seq<ChartStructure>, selections: Option<seq<Selection>>) returns (r: ChartStructure)
    ensures r == ChartOf(formatKind, text, selections, node, children)
    ensures r.htmlClass == SelectedNode <==>
      selections.Some? && exists i :: 0 <= i < |selections.value| && Contains(NodeRange(text, node), selections.value[i])
    ensures r.htmlClass != SelectedNode ==> r.htmlClass == NodeItem
  {
    var isSelected := false;
    if selections.Some? {
      var all := selections.value;
      for i := 0 to |all|
        invariant !isSelected
        invariant forall j :: 0 <= j < i ==> !Contains(NodeRange(text, node), all[j])
      {
        var start := LineAndCharacterOf(text, node.pos);
        var end := LineAndCharacterOf(text, node.end);
        var nodeRange := MakeRange(start, end);
        if Contains(nodeRange, all[i]) {
          isSelected := true;
          break;
        }
      }
    }
    var anchor := LineAndCharacterOf(text, node.pos);
    var active := LineAndCharacterOf(text, node.end);
    r := ChartStructure(
      ChartText(
        formatKind(node.kind),
        Title(node),
        Excerpt(text, node),
        EncodeLineAndCharacter(anchor),
        EncodeLineAndCharacter(active)),
      if isSelected then SelectedNode else NodeItem,
      children);
  }

  /** treeConfigGetChildren: project every `getChildren()` child, then the node itself. */
  method TreeConfigGetChildren(
    formatKind: KindFormatter, text: string, node: Node,
    selections: Option<seq<Selection>>) returns (r: ChartStructure)
    ensures r == Project(formatKind, text, GetChildren, selections, node)
    decreases node
  {
    var children: seq<ChartStructure> := [];
    for i := 0 to |node.children|
      invariant |children| == i
      invariant forall j :: 0 <= j < i ==>
        children[j] == Project(formatKind, text, GetChildren, selections, node.children[j])
    {
      var child := TreeConfigGetChildren(formatKind, text, node.children[i], selections);
      children := children + [child];
    }
    ProjectOfChildren(formatKind, text, GetChildren, selections, node, children);
    r := GetChartStructure(formatKind, text, node, children, selections);
  }

  /**
   * treeConfigForEachChild: the same walk over the children `ts.forEachChild`
   * visits. The callback returns nothing, so the enumeration never stops early.
   */
  method TreeConfigForEachChild(
    formatKind: KindFormatter, text: string, node: Node,
    selections: Option<seq<Selection>>) returns (r: ChartStructure)
    ensures r == Project(formatKind, text, ForEachChild, selections, node)
    decreases node
  {
    var children: seq<ChartStructure> := [];
    for i := 0 to |node.forEachChildren|
      invariant |children| == i
      invariant forall j :: 0 <= j < i ==>
        children[j] == Project(formatKind, text, ForEachChild, selections, node.forEachChildren[j])
    {
      var child := TreeConfigForEachChild(formatKind, text, node.forEachChildren[i], selections);
      children := children + [child];
    }
    ProjectOfChildren(formatKind, text, ForEachChild, selections, node, children);
    r := GetChartStructure(formatKind, text, node, children, selections);
  }

  /**
   * getTreeConfig on the parsed source file: the traversal the mode names,
   * or no tree at all when the mode value matches neither case.
   */
  method GetTreeConfig(
    formatKind: KindFormatter, sourceFile: Node, sourceText: string,
    treeMode: ModeValue, selections: Option<seq<Selection>>) returns (r: Option<ChartStructure>)
    ensures r.Some? <==> SwitchedTraversal(treeMode).Some?
    ensures r.Some? ==> r.value == Project(formatKind, sourceText, SwitchedTraversal(treeMode).value, selections, sourceFile)
  {
    r := None;
    if treeMode == ModeNumber(Ordinal(ForEachChild)) {
      var result := TreeConfigForEachChild(formatKind, sourceText, sourceFile, selections);
      r := Some(result);
    } else if treeMode == ModeNumber(Ordinal(GetChildren)) {
      var result := TreeConfigGetChildren(formatKind, sourceText, sourceFile, selections);
      r := Some(result);
    }
  }

  /** Follows child indices down the syntax tree under a traversal. */
  function NodeAt(node: Node, mode: TreeMode, path: seq<nat>): Option<Node>
    decreases |path|
  {
    if path == [] then Some(node)
    else if path[0] < |Kids(node, mode)| then NodeAt(Kids(node, mode)[path[0]], mode, path[1..])
    else None
  }

  /** Follows child indices down a chart tree. */
  function ChartAt(chart: ChartStructure, path: seq<nat>): Option<ChartStructure>
    decreases |path|
  {
    if path == [] then Some(chart)
    else if path[0] < |chart.children| then ChartAt(chart.children[path[0]], path[1..])
    else None
  }

  /**
   * The chart has a node at exactly the paths where the traversal has one,
   * and that chart node is the projection of the syntax node there: shape,
   * order and every field are preserved at every depth.
   */
  lemma {:induction false} ProjectAt(
    formatKind: KindFormatter, text: string, mode: TreeMode,
    selections: Option<seq<Selection>>, node: Node, path: seq<nat>)
    ensures match NodeAt(node, mode, path)
      case None => ChartAt(Project(formatKind, text, mode, selections, node), path) == None
      case Some(n) =>
        ChartAt(Project(formatKind, text, mode, selections, node), path) ==
        Some(Project(formatKind, text, mode, selections, n))
    decreases |path|
  {
    if path != [] && path[0] < |Kids(node, mode)| {
      ProjectAt(formatKind, text, mode, selections, Kids(node, mode)[path[0]], path[1..]);
    }
  }

  /** What every chart node says about the syntax node it comes from. */
  lemma ProjectedNode(
    formatKind: KindFormatter, text: string, mode: TreeMode,
    selections: Option<seq<Selection>>, root: Node, path: seq<nat>, n: Node)
    requires NodeAt(root, mode, path) == Some(n)
    ensures var c := ChartAt(Project(formatKind, text, mode, selections, root), path);
      c.Some? &&
      c.value.text.name == formatKind(n.kind) &&
      ParseTitle(c.value.text.title) == Some((n.pos, n.end)) &&
      c.value.text.desc == EscapeNewlines(Cut(text, n)) &&
      DecodeLineAndCharacter(c.value.text.anchorLineCharacterJson) == Some(LineAndCharacterOf(text, n.pos)) &&
      DecodeLineAndCharacter(c.value.text.activeLineCharacterJson) == Some(LineAndCharacterOf(text, n.end)) &&
      (c.value.htmlClass == SelectedNode <==> IsSelected(text, n, selections)) &&
      (c.value.htmlClass == SelectedNode || c.value.htmlClass == NodeItem) &&
      |c.value.children| == |Kids(n, mode)|
  {
    ProjectAt(formatKind, text, mode, selections, root, path);
    TitleRoundTrip(n);
    DecodeEncode(LineAndCharacterOf(text, n.pos));
    DecodeEncode(LineAndCharacterOf(text, n.end));
  }

  /** Without selections, or with an empty list of them, no chart node is highlighted. */
  lemma NoSelectionsNoHighlight(
    formatKind: KindFormatter, text: string, mode: TreeMode,
    selections: Option<seq<Selection>>, root: Node, path: seq<nat>)
    requires selections == None || selections == Some([])
    ensures var c := ChartAt(Project(formatKind, text, mode, selections, root), path);
      c.Some? ==> c.value.htmlClass == NodeItem
  {
    ProjectAt(formatKind, text, mode, selections, root, path);
  }

  /** The title determines the node's two offsets. */
  lemma TitleRoundTrip(node: Node)
    ensures ParseTitle(Title(node)) == Some((node.pos, node.end))
  {
    var rest := TitleEnd + NatToString(node.end);
    assert Title(node) == TitlePos + NatToString(node.pos) + rest;
    ParseFieldOfPrinted(TitlePos, node.pos, rest);
    assert rest == TitleEnd + NatToString(node.end) + [];
    ParseFieldOfPrinted(TitleEnd, node.end, []);
  }

  /**
   * The excerpt: no line break survives, it is longer than the cut by one
   * character per line break, the cut keeps at most 50 characters, and for a
   * node inside the text it is the start of the node's own source text.
   */
  lemma ExcerptBounds(text: string, node: Node)
    ensures '\n' !in Excerpt(text, node)
    ensures |Excerpt(text, node)| == |Cut(text, node)| + CountLineBreaks(Cut(text, node))
    ensures |Cut(text, node)| <= ExcerptLength
    ensures node.pos <= node.end <= |text| ==>
      var n := if node.end - node.pos < ExcerptLength then node.end - node.pos else ExcerptLength;
      Cut(text, node) == text[node.pos..node.pos + n]
  {
  }

  lemma {:induction false} AllBreaksCount(n: nat)
    ensures CountLineBreaks(seq(n, _ => '\n')) == n
  {
    if n > 0 {
      assert seq(n, _ => '\n')[..n - 1] == seq(n - 1, _ => '\n');
      AllBreaksCount(n - 1);
    }
  }

  /**
   * Cutting comes before escaping, so an excerpt can be longer than 50
   * characters: a node of 50 line breaks shows 100.
   */
  lemma ExcerptCanExceedLimit(kind: SyntaxKind)
    ensures var text := seq(50, _ => '\n');
      |Excerpt(text, Node(kind, 0, 50, [], []))| == 100
  {
    var text := seq(50, _ => '\n');
    AllBreaksCount(50);
    assert Cut(text, Node(kind, 0, 50, [], [])) == text;
  }

  /** A node whose offsets are in order keeps its range unswapped. */
  lemma NodeRangeInOrder(text: string, node: Node)
    requires node.pos <= node.end
    ensures NodeRange(text, node) == Range(LineAndCharacterOf(text, node.pos), LineAndCharacterOf(text, node.end))
  {
    LineAndCharacterOrder(text, node.pos, node.end);
  }

  /**
   * For a selection whose ends are positions of offsets a and b, the line and
   * character containment test is the offset test: the node covers both.
   */
  lemma ContainsIffOffsets(text: string, node: Node, a: nat, b: nat)
    requires node.pos <= node.end
    ensures Contains(NodeRange(text, node), Selection(LineAndCharacterOf(text, a), LineAndCharacterOf(text, b))) <==>
      node.pos <= a <= node.end && node.pos <= b <= node.end
  {
    NodeRangeInOrder(text, node);
    LineAndCharacterOrder(text, a, b);
    LineAndCharacterOrder(text, b, a);
    LineAndCharacterOrder(text, node.pos, a);
    LineAndCharacterOrder(text, a, node.end);
    LineAndCharacterOrder(text, node.pos, b);
    LineAndCharacterOrder(text, b, node.end);
  }

  /**
   * Containment, not overlap: a selection running past the end of a node
   * leaves it unhighlighted even though the two share text.
   */
  lemma OverlapIsNotContainment(text: string, node: Node, a: nat, b: nat)
    requires node.pos <= a <= node.end < b
    ensures !IsSelected(text, node, Some([Selection(LineAndCharacterOf(text, a), LineAndCharacterOf(text, b))]))
  {
    ContainsIffOffsets(text, node, a, b);
  }
}
