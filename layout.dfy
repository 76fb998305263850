/** The placement rule of `renderNode` in src/main.ts, without the drawing: what is drawn for a
    node at (x, y) and where its children and the curves leading to them go. Coordinates are
    exact reals; the source computes them in floating point. */
module Layout {
  import opened Text
  import opened Tree
  import opened Sizing

  datatype Point = Point(x: real, y: real)

  /** The fold indicator: the centre of its orange circle and the anchor of its `+` label. */
  datatype Indicator = Indicator(center: Point, plusAt: Point)

  /** What `renderNode` draws: a node's circle (centre), its text (anchor) and, for a
      collapsed node with children, the fold indicator; and the Bezier curve from a parent's
      circle to a child's. */
  datatype Element =
    | Glyph(id: NodeId, text: string, center: Point, textAt: Point, depth: nat, indicator: Option<Indicator>)
    | Connector(start: Point, control1: Point, control2: Point, end: Point)

  const NodeRadius: real := 6.0

  /** The x of every child of n drawn at x: past the label and 50 more. */
  function ChildX(n: MindMapNode, x: real): real {
    x + TextWidth(n.text) as real + 50.0
  }

  /** The top of child i's band: `currentY` before the i-th iteration. */
  function BandTop(n: MindMapNode, y: real, i: nat): real
    requires i <= |n.children|
  {
    y - TreeHeight(n) as real / 2.0 + StackedHeight(n.children[..i]) as real
  }

  /** The y of child i: the middle of its band. */
  function ChildY(n: MindMapNode, y: real, i: nat): real
    requires i < |n.children|
  {
    BandTop(n, y, i) + TreeHeight(n.children[i]) as real / 2.0
  }

  /** The fold indicator of a node drawn at (x, y): its circle centred at
      (x + NodeRadius + 10, y), its `+` anchored at (x + NodeRadius + 6, y + 4). */
  function IndicatorAt(x: real, y: real): Indicator {
    Indicator(Point(x + NodeRadius + 10.0, y), Point(x + NodeRadius + 6.0, y + 4.0))
  }

  function GlyphOf(n: MindMapNode, x: real, y: real, depth: nat): Element {
    Glyph(n.id, n.text, Point(x, y), Point(x + 15.0, y + 5.0), depth,
          if |n.children| > 0 && n.collapsed then Some(IndicatorAt(x, y)) else None)
  }

  /** The curve to child i: from the right of the parent's circle to the left of the child's,
      with both control points halfway across. */
  function EdgeTo(n: MindMapNode, x: real, y: real, i: nat): Element
    requires i < |n.children|
  {
    var startX := x + NodeRadius;
    var endX := ChildX(n, x) - NodeRadius;
    var endY := ChildY(n, y, i);
    Connector(Point(startX, y), Point(startX + (endX - startX) * 0.5, y),
              Point(startX + (endX - startX) * 0.5, endY), Point(endX, endY))
  }

  /** Everything drawn for n at (x, y): its glyph, then for each child in turn the curve to it
      and the child's own drawing; nothing below a collapsed node. */
  function Drawing(n: MindMapNode, x: real, y: real, depth: nat): (es: seq<Element>)
    ensures |es| >= 1 && es[0] == GlyphOf(n, x, y, depth)
    decreases n, 1
  {
    [GlyphOf(n, x, y, depth)] + (if IsExpanded(n) then KidsLayout(n, x, y, depth, |n.children|) else [])
  }

  /** The drawing of the first i children of n. */
  function KidsLayout(n: MindMapNode, x: real, y: real, depth: nat, i: nat): seq<Element>
    requires i <= |n.children|
    decreases n, 0, i
  {
    if i == 0 then []
    else
      KidsLayout(n, x, y, depth, i - 1) + [EdgeTo(n, x, y, i - 1)]
        + Drawing(n.children[i - 1], ChildX(n, x), ChildY(n, y, i - 1), depth + 1)
  }

  // ---------------------------------------------------------------------------------------
  // The children's bands

  lemma StackedStep(ts: seq<MindMapNode>, i: nat)
    requires i < |ts|
    ensures StackedHeight(ts[..i + 1]) == StackedHeight(ts[..i]) + TreeHeight(ts[i]) + 20
  {
    assert ts[..i + 1][..i] == ts[..i];
  }

  /** The children of an expanded node at y stack top to bottom in bands as tall as their
      subtrees, 20 apart, each child in the middle of its band; the first band starts at
      y - H/2 and the last ends at y + H/2, so the group is centred on the parent. */
  lemma SiblingBands(n: MindMapNode, y: real)
    requires IsExpanded(n)
    ensures BandTop(n, y, 0) == y - TreeHeight(n) as real / 2.0
    ensures forall i :: 0 <= i < |n.children| - 1 ==>
      BandTop(n, y, i + 1) == BandTop(n, y, i) + TreeHeight(n.children[i]) as real + 20.0
    ensures forall i :: 0 <= i < |n.children| ==>
      ChildY(n, y, i) - BandTop(n, y, i) == BandTop(n, y, i) + TreeHeight(n.children[i]) as real - ChildY(n, y, i)
    ensures var k := |n.children|;
      BandTop(n, y, k - 1) + TreeHeight(n.children[k - 1]) as real == y + TreeHeight(n) as real / 2.0
  {
    var k := |n.children|;
    forall i | 0 <= i < k - 1
      ensures BandTop(n, y, i + 1) == BandTop(n, y, i) + TreeHeight(n.children[i]) as real + 20.0
    {
      StackedStep(n.children, i);
    }
    StackedStep(n.children, k - 1);
    assert n.children[..k] == n.children;
    assert n.children[..0] == [];
  }

  /** Bands of different children do not overlap: a later band starts at least 20 below the end
      of an earlier one. */
  lemma {:induction false} BandsApart(n: MindMapNode, y: real, i: nat, j: nat)
    requires i < j < |n.children|
    ensures BandTop(n, y, i) + TreeHeight(n.children[i]) as real + 20.0 <= BandTop(n, y, j)
    decreases j - i
  {
    StackedStep(n.children, j - 1);
    if i < j - 1 {
      BandsApart(n, y, i, j - 1);
    }
  }

  /** The last band ends at the bottom of the parent's height. */
  lemma LastBandEnd(n: MindMapNode, y: real)
    requires IsExpanded(n)
    ensures var k := |n.children|;
      BandTop(n, y, k - 1) + TreeHeight(n.children[k - 1]) as real == y + TreeHeight(n) as real / 2.0
  {
    var k := |n.children|;
    StackedStep(n.children, k - 1);
    assert n.children[..k] == n.children;
  }

  /** Every band lies within the parent's height, centred on the parent. */
  lemma BandInside(n: MindMapNode, y: real, i: nat)
    requires IsExpanded(n) && i < |n.children|
    ensures y - TreeHeight(n) as real / 2.0 <= BandTop(n, y, i)
    ensures BandTop(n, y, i) + TreeHeight(n.children[i]) as real <= y + TreeHeight(n) as real / 2.0
  {
    var k := |n.children|;
    LastBandEnd(n, y);
    if i < k - 1 {
      BandsApart(n, y, i, k - 1);
    }
    assert StackedHeight(n.children[..i]) >= 0;
  }

  // ---------------------------------------------------------------------------------------
  // Where the glyphs go

  /** Every glyph of es has its centre at or right of minX and between lo and hi. */
  predicate GlyphsWithin(es: seq<Element>, minX: real, lo: real, hi: real) {
    forall e :: e in es && e.Glyph? ==> minX <= e.center.x && lo <= e.center.y <= hi
  }

  /** The drawing of a node at (x, y) stays right of x and inside its vertical extent: no glyph
      centre is nearer than 20 to the top or bottom of its height H. */
  lemma {:induction false} LayoutWithin(n: MindMapNode, x: real, y: real, depth: nat)
    ensures GlyphsWithin(Drawing(n, x, y, depth), x,
                         y - TreeHeight(n) as real / 2.0 + 20.0, y + TreeHeight(n) as real / 2.0 - 20.0)
    decreases n, 1
  {
    if IsExpanded(n) {
      KidsWithin(n, x, y, depth, |n.children|);
    }
  }

  lemma {:induction false} KidsWithin(n: MindMapNode, x: real, y: real, depth: nat, i: nat)
    requires IsExpanded(n) && i <= |n.children|
    ensures GlyphsWithin(KidsLayout(n, x, y, depth, i), x,
                         y - TreeHeight(n) as real / 2.0 + 20.0, y + TreeHeight(n) as real / 2.0 - 20.0)
    decreases n, 0, i
  {
    if i > 0 {
      var c := n.children[i - 1];
      KidsWithin(n, x, y, depth, i - 1);
      LayoutWithin(c, ChildX(n, x), ChildY(n, y, i - 1), depth + 1);
      BandInside(n, y, i - 1);
    }
  }

  /** The drawings of two different children are apart: every glyph of a later child's subtree
      is at least 60 below every glyph of an earlier child's subtree. */
  lemma SiblingsApart(n: MindMapNode, x: real, y: real, depth: nat, i: nat, j: nat, e: Element, f: Element)
    requires IsExpanded(n) && i < j < |n.children|
    requires e in Drawing(n.children[i], ChildX(n, x), ChildY(n, y, i), depth + 1) && e.Glyph?
    requires f in Drawing(n.children[j], ChildX(n, x), ChildY(n, y, j), depth + 1) && f.Glyph?
    ensures f.center.y - e.center.y >= 60.0
  {
    LayoutWithin(n.children[i], ChildX(n, x), ChildY(n, y, i), depth + 1);
    LayoutWithin(n.children[j], ChildX(n, x), ChildY(n, y, j), depth + 1);
    BandsApart(n, y, i, j);
  }

  // ---------------------------------------------------------------------------------------
  // What is shown

  /** The nodes whose glyphs es draws, in drawing order. */
  function Shown(es: seq<Element>): seq<Label> {
    if es == [] then []
    else Shown(es[..|es| - 1]) + (if es[|es| - 1].Glyph? then [(es[|es| - 1].id, es[|es| - 1].text)] else [])
  }

  /** The number of curves es draws. */
  function Links(es: seq<Element>): nat {
    if es == [] then 0 else Links(es[..|es| - 1]) + (if es[|es| - 1].Connector? then 1 else 0)
  }

  lemma {:induction false} ShownConcat(a: seq<Element>, b: seq<Element>)
    ensures Shown(a + b) == Shown(a) + Shown(b)
    ensures Links(a + b) == Links(a) + Links(b)
    decreases |b|
  {
    if b == [] {
      assert a + b == a;
    } else {
      var b' := b[..|b| - 1];
      assert (a + b)[..|a + b| - 1] == a + b';
      ShownConcat(a, b');
    }
  }

  /** The drawing shows exactly the nodes that are not hidden under a collapsed node, parents
      before children, and one curve to each of them but the top one. */
  lemma {:induction false} LayoutShowsVisible(n: MindMapNode, x: real, y: real, depth: nat)
    ensures Shown(Drawing(n, x, y, depth)) == VisiblePreorder(n)
    ensures Links(Drawing(n, x, y, depth)) == |VisiblePreorder(n)| - 1
    decreases n, 1
  {
    var g := GlyphOf(n, x, y, depth);
    assert Shown([g]) == [(n.id, n.text)] by { assert [g][..0] == []; }
    assert Links([g]) == 0 by { assert [g][..0] == []; }
    if IsExpanded(n) {
      KidsShowVisible(n, x, y, depth, |n.children|);
      assert n.children[..|n.children|] == n.children;
      ShownConcat([g], KidsLayout(n, x, y, depth, |n.children|));
    } else {
      assert Drawing(n, x, y, depth) == [g];
    }
  }

  lemma {:induction false} KidsShowVisible(n: MindMapNode, x: real, y: real, depth: nat, i: nat)
    requires i <= |n.children|
    ensures Shown(KidsLayout(n, x, y, depth, i)) == VisibleFlatten(n.children[..i])
    ensures Links(KidsLayout(n, x, y, depth, i)) == |VisibleFlatten(n.children[..i])|
    decreases n, 0, i
  {
    if i == 0 {
      assert n.children[..0] == [];
    } else {
      var c := n.children[i - 1];
      KidsShowVisible(n, x, y, depth, i - 1);
      LayoutShowsVisible(c, ChildX(n, x), ChildY(n, y, i - 1), depth + 1);
      ShownStep(KidsLayout(n, x, y, depth, i - 1), EdgeTo(n, x, y, i - 1),
                Drawing(c, ChildX(n, x), ChildY(n, y, i - 1), depth + 1));
      VisibleFlattenStep(n.children, i);
    }
  }

  lemma ShownStep(front: seq<Element>, edge: Element, sub: seq<Element>)
    requires edge.Connector?
    ensures Shown(front + [edge] + sub) == Shown(front) + Shown(sub)
    ensures Links(front + [edge] + sub) == Links(front) + 1 + Links(sub)
  {
    ShownConcat(front, [edge]);
    ShownConcat(front + [edge], sub);
    assert [edge][..0] == [];
  }

  lemma VisibleFlattenStep(ts: seq<MindMapNode>, i: nat)
    requires 0 < i <= |ts|
    ensures VisibleFlatten(ts[..i]) == VisibleFlatten(ts[..i - 1]) + VisiblePreorder(ts[i - 1])
  {
    assert ts[..i][..i - 1] == ts[..i - 1];
  }

  // ---------------------------------------------------------------------------------------
  // The curves

  /** Every curve of es runs rightwards, has both control points halfway across (the first
      level with its start, the second with its end) and is followed by the glyph it leads to,
      whose circle it meets at its left edge. */
  predicate WellLinked(es: seq<Element>) {
    forall k :: 0 <= k < |es| && es[k].Connector? ==>
      && es[k].end.x > es[k].start.x
      && es[k].control1 == Point((es[k].start.x + es[k].end.x) / 2.0, es[k].start.y)
      && es[k].control2 == Point((es[k].start.x + es[k].end.x) / 2.0, es[k].end.y)
      && k + 1 < |es| && es[k + 1].Glyph?
      && es[k].end == Point(es[k + 1].center.x - NodeRadius, es[k + 1].center.y)
  }

  lemma WellLinkedConcat(a: seq<Element>, b: seq<Element>)
    requires WellLinked(a) && WellLinked(b)
    ensures WellLinked(a + b)
  {
    forall k | 0 <= k < |a + b| && (a + b)[k].Connector?
      ensures (a + b)[k].end.x > (a + b)[k].start.x
      ensures k + 1 < |a + b| && (a + b)[k + 1].Glyph?
    {
      if k < |a| {
        assert (a + b)[k] == a[k];
        assert (a + b)[k + 1] == a[k + 1];
      } else {
        assert (a + b)[k] == b[k - |a|];
        assert (a + b)[k + 1] == b[k + 1 - |a|];
      }
    }
  }

  /** Every curve in the drawing of a tree has the shape above and leads to a child's glyph. */
  lemma {:induction false} LayoutWellLinked(n: MindMapNode, x: real, y: real, depth: nat)
    ensures WellLinked(Drawing(n, x, y, depth))
    decreases n, 1
  {
    var g := GlyphOf(n, x, y, depth);
    if IsExpanded(n) {
      KidsWellLinked(n, x, y, depth, |n.children|);
      WellLinkedConcat([g], KidsLayout(n, x, y, depth, |n.children|));
    }
  }

  lemma {:induction false} KidsWellLinked(n: MindMapNode, x: real, y: real, depth: nat, i: nat)
    requires i <= |n.children|
    ensures WellLinked(KidsLayout(n, x, y, depth, i))
    decreases n, 0, i, 1
  {
    if i > 0 {
      var pre := KidsLayout(n, x, y, depth, i - 1);
      var edge := EdgeTo(n, x, y, i - 1);
      var sub := Drawing(n.children[i - 1], ChildX(n, x), ChildY(n, y, i - 1), depth + 1);
      KidsWellLinked(n, x, y, depth, i - 1);
      EdgeThenChild(n, x, y, depth, i - 1);
      WellLinkedConcat(pre, [edge] + sub);
      ConcatAssoc(pre, [edge], sub);
    }
  }

  /** The drawing of the first j children is where the drawing of the first m starts. */
  lemma {:induction false} KidsPrefix(n: MindMapNode, x: real, y: real, depth: nat, j: nat, m: nat)
    requires j <= m <= |n.children|
    ensures |KidsLayout(n, x, y, depth, j)| <= |KidsLayout(n, x, y, depth, m)|
    ensures KidsLayout(n, x, y, depth, m)[..|KidsLayout(n, x, y, depth, j)|] == KidsLayout(n, x, y, depth, j)
    decreases m
  {
    if j < m {
      KidsPrefix(n, x, y, depth, j, m - 1);
      var front := KidsLayout(n, x, y, depth, m - 1);
      var rest := [EdgeTo(n, x, y, m - 1)] + Drawing(n.children[m - 1], ChildX(n, x), ChildY(n, y, m - 1), depth + 1);
      ConcatAssoc(front, [EdgeTo(n, x, y, m - 1)], Drawing(n.children[m - 1], ChildX(n, x), ChildY(n, y, m - 1), depth + 1));
      PrefixOfConcat(front, rest, |KidsLayout(n, x, y, depth, j)|);
    }
  }

  lemma PrefixOfConcat(a: seq<Element>, b: seq<Element>, k: nat)
    requires k <= |a|
    ensures (a + b)[..k] == a[..k]
  {
  }

  /** Element k of es is the curve c, and right after it comes the drawing sub. */
  predicate CurveThen(es: seq<Element>, k: nat, c: Element, sub: seq<Element>) {
    k + 1 + |sub| <= |es| && es[k] == c && es[k + 1..k + 1 + |sub|] == sub
  }

  /** The curve to child i of an expanded node: it leaves the right edge of the parent's circle
      at (x + 6, y), ends 6 left of the child's centre, has both control points halfway across,
      and is followed at once by the child's whole drawing. */
  lemma {:induction false} ChildConnector(n: MindMapNode, x: real, y: real, depth: nat, i: nat)
    requires IsExpanded(n) && i < |n.children|
    ensures var cx, cy := ChildX(n, x), ChildY(n, y, i);
      CurveThen(Drawing(n, x, y, depth), 1 + |KidsLayout(n, x, y, depth, i)|,
                Connector(Point(x + NodeRadius, y), Point((x + cx) / 2.0, y),
                          Point((x + cx) / 2.0, cy), Point(cx - NodeRadius, cy)),
                Drawing(n.children[i], cx, cy, depth + 1))
  {
    var all := KidsLayout(n, x, y, depth, |n.children|);
    var front := KidsLayout(n, x, y, depth, i);
    var edge := EdgeTo(n, x, y, i);
    var sub := Drawing(n.children[i], ChildX(n, x), ChildY(n, y, i), depth + 1);
    var upto := KidsLayout(n, x, y, depth, i + 1);
    assert upto == front + [edge] + sub;
    KidsPrefix(n, x, y, depth, i + 1, |n.children|);
    SliceAfterGlyph(Drawing(n, x, y, depth), GlyphOf(n, x, y, depth), all, upto, front, edge, sub, 1 + |front|);
    EdgeShape(n, x, y, i);
  }

  /** The curve to child i, with its control points written as midpoints. */
  lemma EdgeShape(n: MindMapNode, x: real, y: real, i: nat)
    requires i < |n.children|
    ensures var cx, cy := ChildX(n, x), ChildY(n, y, i);
      EdgeTo(n, x, y, i) == Connector(Point(x + NodeRadius, y), Point((x + cx) / 2.0, y),
                                      Point((x + cx) / 2.0, cy), Point(cx - NodeRadius, cy))
  {
  }

  /** Where a piece of a drawing sits once the glyph in front of it is counted. */
  lemma SliceAfterGlyph(es: seq<Element>, g: Element, all: seq<Element>, upto: seq<Element>,
                        front: seq<Element>, edge: Element, sub: seq<Element>, k: nat)
    requires es == [g] + all && |upto| <= |all| && all[..|upto|] == upto
    requires upto == front + [edge] + sub && k == 1 + |front|
    ensures CurveThen(es, k, edge, sub)
  {
    var f := |front|;
    assert upto[f] == edge && upto[f + 1..] == sub;
    assert all[f] == all[..|upto|][f] == upto[f];
    assert es[1 + f] == all[f];
    assert all[f + 1..|upto|] == all[..|upto|][f + 1..] == sub;
    assert es[1 + f + 1..1 + f + 1 + |sub|] == all[f + 1..|upto|];
  }

  /** The curve to child i and the child's drawing after it. */
  lemma {:induction false} EdgeThenChild(n: MindMapNode, x: real, y: real, depth: nat, i: nat)
    requires i < |n.children|
    ensures WellLinked([EdgeTo(n, x, y, i)] + Drawing(n.children[i], ChildX(n, x), ChildY(n, y, i), depth + 1))
    decreases n, 0, i + 1, 0
  {
    var sub := Drawing(n.children[i], ChildX(n, x), ChildY(n, y, i), depth + 1);
    LayoutWellLinked(n.children[i], ChildX(n, x), ChildY(n, y, i), depth + 1);
    WellLinkedTail(EdgeTo(n, x, y, i), sub);
  }

  lemma WellLinkedTail(edge: Element, sub: seq<Element>)
    requires WellLinked(sub) && |sub| >= 1 && sub[0].Glyph?
    requires edge.Connector? && edge.end.x > edge.start.x
    requires edge.control1 == Point((edge.start.x + edge.end.x) / 2.0, edge.start.y)
    requires edge.control2 == Point((edge.start.x + edge.end.x) / 2.0, edge.end.y)
    requires edge.end == Point(sub[0].center.x - NodeRadius, sub[0].center.y)
    ensures WellLinked([edge] + sub)
  {
    forall k | 1 <= k < |[edge] + sub| && ([edge] + sub)[k].Connector?
      ensures k + 1 < |[edge] + sub|
    {
      assert ([edge] + sub)[k] == sub[k - 1];
    }
  }

  // ---------------------------------------------------------------------------------------
  // Folded nodes

  /** A node whose children are not drawn contributes its glyph only; it carries the fold
      indicator exactly when it has children and is collapsed. */
  lemma FoldedDrawsOnlyGlyph(n: MindMapNode, x: real, y: real, depth: nat)
    requires !IsExpanded(n)
    ensures Drawing(n, x, y, depth) == [GlyphOf(n, x, y, depth)]
    ensures GlyphOf(n, x, y, depth).indicator.Some? <==> |n.children| > 0 && n.collapsed
  {
  }

  /** No glyph of es carries a fold indicator. */
  predicate NoIndicator(es: seq<Element>) {
    forall e :: e in es && e.Glyph? ==> e.indicator.None?
  }

  /** In a tree where nothing is collapsed, no fold indicator is drawn. */
  lemma {:induction false} ExpandedHasNoIndicator(n: MindMapNode, x: real, y: real, depth: nat)
    requires AllExpanded(n)
    ensures NoIndicator(Drawing(n, x, y, depth))
    decreases n, 1
  {
    if IsExpanded(n) {
      KidsHaveNoIndicator(n, x, y, depth, |n.children|);
    }
  }

  lemma {:induction false} KidsHaveNoIndicator(n: MindMapNode, x: real, y: real, depth: nat, i: nat)
    requires AllExpanded(n) && i <= |n.children|
    ensures NoIndicator(KidsLayout(n, x, y, depth, i))
    decreases n, 0, i
  {
    if i > 0 {
      KidsHaveNoIndicator(n, x, y, depth, i - 1);
      ExpandedHasNoIndicator(n.children[i - 1], ChildX(n, x), ChildY(n, y, i - 1), depth + 1);
    }
  }

  // ---------------------------------------------------------------------------------------
  // The loop of the source

  /** `renderNode` without the drawing calls: the node's glyph, then, if its children are
      drawn, the curves and drawings of the children; or, if it is collapsed, the fold
      indicator. */
  method RenderNode(node: MindMapNode, x: real, y: real, depth: nat) returns (out: seq<Element>)
    ensures out == Drawing(node, x, y, depth)
    decreases node, 1
  {
    var indicator: Option<Indicator> := None;
    var drawn: seq<Element> := [];
    if |node.children| > 0 && !node.collapsed {
      drawn := RenderChildren(node, x, y, depth);
    } else if |node.children| > 0 && node.collapsed {
      indicator := Some(Indicator(Point(x + NodeRadius + 10.0, y), Point(x + NodeRadius + 6.0, y + 4.0)));
    }
    out := [Glyph(node.id, node.text, Point(x, y), Point(x + 15.0, y + 5.0), depth, indicator)] + drawn;
  }

  /** The child loop of `renderNode`: `currentY` starts at the top of the node's height and
      moves down by each child's height plus 20; each child is drawn in the middle of its band,
      after the curve that leads to it. */
  method RenderChildren(node: MindMapNode, x: real, y: real, depth: nat) returns (drawn: seq<Element>)
    requires IsExpanded(node)
    ensures drawn == KidsLayout(node, x, y, depth, |node.children|)
    decreases node, 0
  {
    var childX := x + TextWidth(node.text) as real + 50.0;
    var totalHeight := CalculateTreeHeight(node);
    var currentY := y - totalHeight as real / 2.0;
    assert node.children[..0] == [];
    drawn := [];
    var i := 0;
    while i < |node.children|
      invariant i <= |node.children|
      invariant currentY == BandTop(node, y, i)
      invariant drawn == KidsLayout(node, x, y, depth, i)
    {
      var child := node.children[i];
      var childHeight := CalculateTreeHeight(child);
      var childY := currentY + childHeight as real / 2.0;
      var startX := x + NodeRadius;
      var endX := childX - NodeRadius;
      var line := Connector(Point(startX, y), Point(startX + (endX - startX) * 0.5, y),
                            Point(startX + (endX - startX) * 0.5, childY), Point(endX, childY));
      var sub := RenderNode(child, childX, childY, depth + 1);
      drawn := drawn + [line] + sub;
      StackedStep(node.children, i);
      currentY := currentY + childHeight as real + 20.0;
      i := i + 1;
    }
  }
}
