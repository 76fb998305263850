/** `MindMapRenderer` of src/main.ts: it holds the note's source text and the parsed tree,
    draws the tree, and redraws it when a node or a fold indicator is clicked. The drawing is
    the sequence of elements `Drawing` computes from the parsed tree. */
module Renderer {
  import opened Tree
  import opened Parser
  import opened Layout
  import ParseOrder

  /** What the container shows: nothing yet (or just cleared), the "No content to render"
      message, or a drawing. */
  datatype View = Blank | NoContent | Diagram(elements: seq<Element>)

  /** What `render` puts in the container for a parsed tree: the message when there is none,
      otherwise the tree drawn with its root at (50, 300) and depth 0. */
  function Present(root: Option<MindMapNode>): View {
    if root.None? then NoContent else Diagram(Drawing(root.value, 50.0, 300.0, 0))
  }

  class MindMapRenderer {
    var source: string
    var root: Option<MindMapNode>
    var view: View

    constructor(source: string)
      ensures this.source == source && root == None && view == Blank
    {
      this.source := source;
      root := None;
      view := Blank;
    }

    /** `render`: parse the source again, then show the message or draw the new tree. It adds
        to the container without clearing it, and every caller hands it an empty one. */
    method Render()
      requires view == Blank
      modifies this
      ensures source == old(source)
      ensures root == Parse(source) && view == Present(root)
    {
      root := ParseMarkdownList(source);
      if root.None? {
        view := NoContent;
        return;
      }
      var drawn := RenderNode(root.value, 50.0, 300.0, 0);
      view := Diagram(drawn);
    }

    /** `refresh`: clear the container and `render`. */
    method Refresh()
      modifies this
      ensures source == old(source)
      ensures root == Parse(source) && view == Present(root)
    {
      view := Blank;
      Render();
    }

    /** The `toggleNode` handler of the node at path `p`, as written: on a node with children
        it flips `collapsed` and calls `refresh`, whose `render` replaces the tree with a fresh
        parse of the source, so the new flag is dropped with the old tree. */
    method ToggleNode(p: seq<nat>)
      requires root.Some? && IsPath(root.value, p)
      modifies this
      ensures source == old(source)
      ensures |NodeAt(old(root).value, p).children| == 0 ==> root == old(root) && view == old(view)
      ensures |NodeAt(old(root).value, p).children| > 0 ==> root == Parse(source) && view == Present(root)
    {
      var t := root.value;
      if |NodeAt(t, p).children| > 0 {
        root := Some(ToggleAt(t, p));
        Refresh();
      }
    }

    /** The click handler of the fold indicator of the node at path `p`, as written: it sets
        `collapsed` to false and calls `refresh`, which parses the source again. */
    method ClickIndicator(p: seq<nat>)
      requires root.Some? && IsPath(root.value, p)
      modifies this
      ensures source == old(source)
      ensures root == Parse(source) && view == Present(root)
    {
      root := Some(ExpandAt(root.value, p));
      Refresh();
    }

    /** A redraw that keeps the tree the renderer holds instead of parsing the source again. */
    method Redraw()
      modifies this
      ensures source == old(source) && root == old(root)
      ensures view == Present(root)
    {
      if root.None? {
        view := NoContent;
        return;
      }
      var drawn := RenderNode(root.value, 50.0, 300.0, 0);
      view := Diagram(drawn);
    }

    /** `toggleNode` as evidently intended: flip the flag and redraw the same tree. */
    method ToggleNodeKeepingFold(p: seq<nat>)
      requires root.Some? && IsPath(root.value, p)
      modifies this
      ensures source == old(source)
      ensures |NodeAt(old(root).value, p).children| == 0 ==> root == old(root) && view == old(view)
      ensures |NodeAt(old(root).value, p).children| > 0 ==>
        root == Some(ToggleAt(old(root).value, p)) && view == Present(root)
    {
      var t := root.value;
      if |NodeAt(t, p).children| > 0 {
        root := Some(ToggleAt(t, p));
        Redraw();
      }
    }

    /** The indicator handler as evidently intended: expand the node and redraw the same tree. */
    method ClickIndicatorKeepingFold(p: seq<nat>)
      requires root.Some? && IsPath(root.value, p)
      modifies this
      ensures source == old(source)
      ensures root == Some(ExpandAt(old(root).value, p)) && view == Present(root)
    {
      root := Some(ExpandAt(root.value, p));
      Redraw();
    }
  }

  // ---------------------------------------------------------------------------------------
  // What the handlers achieve

  lemma {:induction false} AllExpandedAt(t: MindMapNode, p: seq<nat>)
    requires AllExpanded(t) && IsPath(t, p)
    ensures AllExpanded(NodeAt(t, p))
    decreases p
  {
    if p != [] {
      AllExpandedAt(t.children[p[0]], p[1..]);
    }
  }

  /** A drawing made straight after a parse never shows a fold indicator: the branch of
      `renderNode` that draws one cannot be reached by the renderer as written. */
  lemma IndicatorNeverDrawn(source: string)
    requires Parse(source).Some?
    ensures Present(Parse(source)).Diagram?
    ensures NoIndicator(Present(Parse(source)).elements)
  {
    ParseOrder.ParseAllExpanded(source);
    ExpandedHasNoIndicator(Parse(source).value, 50.0, 300.0, 0);
  }

  /** The fold is lost. Starting from a drawn source, the as-written toggle of a node with
      children does set its flag to collapsed, yet after the handler's `refresh` that node is
      expanded again and the drawing carries no fold indicator. */
  lemma RefreshForgetsFold(source: string, p: seq<nat>)
    requires Parse(source).Some? && IsPath(Parse(source).value, p)
    requires |NodeAt(Parse(source).value, p).children| > 0
    ensures NodeAt(ToggleAt(Parse(source).value, p), p).collapsed
    ensures !NodeAt(Parse(source).value, p).collapsed
    ensures NoIndicator(Present(Parse(source)).elements)
  {
    var t := Parse(source).value;
    ParseOrder.ParseAllExpanded(source);
    AllExpandedAt(t, p);
    IndicatorNeverDrawn(source);
  }

  lemma {:induction false} SetCollapsedKeepsVisiblePath(t: MindMapNode, p: seq<nat>, b: bool)
    requires IsPath(t, p) && IsVisiblePath(t, p)
    ensures IsVisiblePath(SetCollapsed(t, p, b), p)
    decreases p
  {
    if p != [] {
      SetCollapsedKeepsVisiblePath(t.children[p[0]], p[1..], b);
    }
  }

  /** Each node on a drawn path appears in the drawing with its own glyph, at some position
      and depth. */
  lemma {:induction false} VisibleNodeDrawn(n: MindMapNode, x: real, y: real, depth: nat, p: seq<nat>)
    requires IsPath(n, p) && IsVisiblePath(n, p)
    ensures exists x': real, y': real, d: nat :: GlyphOf(NodeAt(n, p), x', y', d) in Drawing(n, x, y, depth)
    decreases p
  {
    if p == [] {
      assert Drawing(n, x, y, depth)[0] == GlyphOf(NodeAt(n, p), x, y, depth);
      assert GlyphOf(NodeAt(n, p), x, y, depth) in Drawing(n, x, y, depth);
    } else {
      var j := p[0];
      VisibleNodeDrawn(n.children[j], ChildX(n, x), ChildY(n, y, j), depth + 1, p[1..]);
      var x', y', d :| GlyphOf(NodeAt(n, p), x', y', d) in Drawing(n.children[j], ChildX(n, x), ChildY(n, y, j), depth + 1);
      ChildDrawnInKids(n, x, y, depth, j, |n.children|, GlyphOf(NodeAt(n, p), x', y', d));
    }
  }

  lemma {:induction false} ChildDrawnInKids(n: MindMapNode, x: real, y: real, depth: nat, j: nat, i: nat, e: Element)
    requires IsExpanded(n) && j < i <= |n.children|
    requires e in Drawing(n.children[j], ChildX(n, x), ChildY(n, y, j), depth + 1)
    ensures e in KidsLayout(n, x, y, depth, i)
    ensures i == |n.children| ==> e in Drawing(n, x, y, depth)
    decreases i
  {
    if j < i - 1 {
      ChildDrawnInKids(n, x, y, depth, j, i - 1, e);
    }
  }

  /** With the fold kept, collapsing a drawn, expanded node removes exactly its drawn
      descendants from the drawing, keeps everything drawn before and after it, and draws the
      node's own glyph with its fold indicator. */
  lemma FoldKeptHidesDescendants(t: MindMapNode, p: seq<nat>)
    requires IsPath(t, p) && IsVisiblePath(t, p) && IsExpanded(NodeAt(t, p))
    ensures Present(Some(ToggleAt(t, p))).Diagram?
    ensures IsPath(ToggleAt(t, p), p) && NodeAt(ToggleAt(t, p), p) == NodeAt(t, p).(collapsed := true)
    ensures Shown(Present(Some(t)).elements) == DrawnBefore(t, p) + VisiblePreorder(NodeAt(t, p)) + DrawnAfter(t, p)
    ensures Shown(Present(Some(ToggleAt(t, p))).elements)
         == DrawnBefore(t, p) + [(NodeAt(t, p).id, NodeAt(t, p).text)] + DrawnAfter(t, p)
    ensures |Shown(Present(Some(ToggleAt(t, p))).elements)|
         == |Shown(Present(Some(t)).elements)| - (|VisiblePreorder(NodeAt(t, p))| - 1)
    ensures exists x': real, y': real, d: nat ::
      && GlyphOf(NodeAt(ToggleAt(t, p), p), x', y', d) in Present(Some(ToggleAt(t, p))).elements
      && GlyphOf(NodeAt(ToggleAt(t, p), p), x', y', d).indicator
         == Some(Indicator(Point(x' + NodeRadius + 10.0, y'), Point(x' + NodeRadius + 6.0, y' + 4.0)))
    ensures !NoIndicator(Present(Some(ToggleAt(t, p))).elements)
  {
    var u := ToggleAt(t, p);
    assert u == SetCollapsed(t, p, true);
    FoldHidesDescendants(t, p);
    LayoutShowsVisible(t, 50.0, 300.0, 0);
    LayoutShowsVisible(u, 50.0, 300.0, 0);
    SetCollapsedKeepsVisiblePath(t, p, true);
    VisibleNodeDrawn(u, 50.0, 300.0, 0, p);
    var x', y', d :| GlyphOf(NodeAt(u, p), x', y', d) in Drawing(u, 50.0, 300.0, 0);
    assert GlyphOf(NodeAt(u, p), x', y', d).indicator
        == Some(Indicator(Point(x' + NodeRadius + 10.0, y'), Point(x' + NodeRadius + 6.0, y' + 4.0)));
  }

  /** With the fold kept, a click on the indicator of a node that was just folded gives back
      the drawing from before the fold. */
  lemma IndicatorUndoesFold(t: MindMapNode, p: seq<nat>)
    requires IsPath(t, p) && IsExpanded(NodeAt(t, p))
    ensures IsPath(ToggleAt(t, p), p)
    ensures Present(Some(ExpandAt(ToggleAt(t, p), p))) == Present(Some(t))
  {
    SetCollapsedTwice(t, p, true, false);
    SetCollapsedSame(t, p);
  }
}
