/**
 * The first version of the projection, the `treeConfig` function of the
 * top-level transform.ts script: `getChildren` traversal only, a highlight
 * for the nodes that cover one fixed offset, and an unescaped excerpt.
 */
module Prototype {
  import opened Wrappers
  import opened Positions
  import opened Ranges
  import opened Transform

  /** The offset the script highlights: fixed at -1, before every node. */
  const HighlightPos: int := -1

  const StrongNode := "strongNode"

  datatype ConfigText = ConfigText(name: string, title: string, desc: string)

  datatype ConfigNode = ConfigNode(text: ConfigText, htmlClass: string, children: seq<ConfigNode>)

  /** A node is strong exactly when it covers the offset, both ends included. */
  function ClassOf(pos: int, node: Node): (r: string)
    ensures r == StrongNode <==> node.pos <= pos <= node.end
    ensures r != StrongNode ==> r == NodeItem
  {
    if pos < node.pos || pos > node.end then NodeItem else StrongNode
  }

  /** The text fields of a node's record: name, title and the unescaped cut. */
  function NodeConfigText(formatKind: KindFormatter, text: string, node: Node): ConfigText {
    ConfigText(formatKind(node.kind), Title(node), Cut(text, node))
  }

  /** The record the script builds for a node and its `getChildren()` children. */
  function Config(formatKind: KindFormatter, text: string, pos: int, node: Node): ConfigNode
    decreases node
  {
    ConfigNode(
      NodeConfigText(formatKind, text, node),
      ClassOf(pos, node),
      seq(|node.children|, i requires 0 <= i < |node.children| => Config(formatKind, text, pos, node.children[i])))
  }

  /** A node's record over the records of its children. */
  lemma ConfigOfChildren(formatKind: KindFormatter, text: string, pos: int, node: Node, children: seq<ConfigNode>)
    requires |children| == |node.children|
    requires forall j :: 0 <= j < |children| ==> children[j] == Config(formatKind, text, pos, node.children[j])
    ensures Config(formatKind, text, pos, node) ==
      ConfigNode(NodeConfigText(formatKind, text, node), ClassOf(pos, node), children)
  {
    assert children == seq(|node.children|, i requires 0 <= i < |node.children| => Config(formatKind, text, pos, node.children[i]));
  }

  /** treeConfig: the children first, pushed in order, then the node's own record. */
  method TreeConfig(formatKind: KindFormatter, sourceText: string, node: Node) returns (r: ConfigNode)
    ensures r == Config(formatKind, sourceText, HighlightPos, node)
    decreases node
  {
    var children: seq<ConfigNode> := [];
    for i := 0 to |node.children|
      invariant |children| == i
      invariant forall j :: 0 <= j < i ==> children[j] == Config(formatKind, sourceText, HighlightPos, node.children[j])
    {
      var child := TreeConfig(formatKind, sourceText, node.children[i]);
      children := children + [child];
    }
    ConfigOfChildren(formatKind, sourceText, HighlightPos, node, children);
    r := ConfigNode(
      ConfigText(formatKind(node.kind), Title(node), Cut(sourceText, node)),
      if HighlightPos < node.pos || HighlightPos > node.end then NodeItem else StrongNode,
      children);
  }

  function ConfigAt(config: ConfigNode, path: seq<nat>): Option<ConfigNode>
    decreases |path|
  {
    if path == [] then Some(config)
    else if path[0] < |config.children| then ConfigAt(config.children[path[0]], path[1..])
    else None
  }

  /** The script's tree has the shape of the `getChildren` tree, node for node. */
  lemma {:induction false} ConfigAtPath(formatKind: KindFormatter, text: string, pos: int, root: Node, path: seq<nat>)
    ensures match NodeAt(root, GetChildren, path)
      case None => ConfigAt(Config(formatKind, text, pos, root), path) == None
      case Some(n) => ConfigAt(Config(formatKind, text, pos, root), path) == Some(Config(formatKind, text, pos, n))
    decreases |path|
  {
    if path != [] && path[0] < |root.children| {
      ConfigAtPath(formatKind, text, pos, root.children[path[0]], path[1..]);
    }
  }

  /** With the offset fixed at -1 no node is strong. */
  lemma ScriptHighlightsNothing(formatKind: KindFormatter, text: string, root: Node, path: seq<nat>)
    ensures var c := ConfigAt(Config(formatKind, text, HighlightPos, root), path);
      c.Some? ==> c.value.htmlClass == NodeItem
  {
    ConfigAtPath(formatKind, text, HighlightPos, root, path);
  }

  /**
   * The prototype and the extension's getChildren projection agree node for
   * node: same name and title, and the extension's excerpt is the
   * prototype's with its line breaks escaped.
   */
  lemma AgreesWithProjection(
    formatKind: KindFormatter, text: string, pos: int,
    selections: Option<seq<Selection>>, root: Node, path: seq<nat>)
    ensures var c := ConfigAt(Config(formatKind, text, pos, root), path);
      var chart := ChartAt(Project(formatKind, text, GetChildren, selections, root), path);
      c.Some? <==> chart.Some?
    ensures var c := ConfigAt(Config(formatKind, text, pos, root), path);
      var chart := ChartAt(Project(formatKind, text, GetChildren, selections, root), path);
      c.Some? && chart.Some? ==>
        c.value.text.name == chart.value.text.name &&
        c.value.text.title == chart.value.text.title &&
        EscapeNewlines(c.value.text.desc) == chart.value.text.desc &&
        |c.value.children| == |chart.value.children|
  {
    ConfigAtPath(formatKind, text, pos, root, path);
    ProjectAt(formatKind, text, GetChildren, selections, root, path);
  }

  /**
   * The two highlight rules coincide for a caret: a node is strong for offset
   * p exactly when the extension selects it for an empty selection at p.
   */
  lemma CaretHighlightAgrees(text: string, node: Node, p: nat)
    requires node.pos <= node.end
    ensures var caret := Selection(LineAndCharacterOf(text, p), LineAndCharacterOf(text, p));
      ClassOf(p, node) == StrongNode <==> IsSelected(text, node, Some([caret]))
  {
    ContainsIffOffsets(text, node, p, p);
    var caret := Selection(LineAndCharacterOf(text, p), LineAndCharacterOf(text, p));
    var selections := Some([caret]);
    assert selections.value[0] == caret;
  }
}
