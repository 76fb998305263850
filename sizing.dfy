/** The size estimates of src/main.ts: `calculateTextWidth`, `calculateTreeHeight` and
    `calculateTreeWidth`. A drawn subtree takes 40 units of height per leaf, with 20 units
    between siblings; a label takes 8 units per character plus 20. */
module Sizing {
  import opened Tree

  /** `calculateTextWidth`: 8 units per character and 20 of padding. */
  function TextWidth(t: string): (w: int)
    ensures w >= 20
  {
    |t| * 8 + 20
  }

  /** `calculateTreeHeight`: 40 for a node whose children are not drawn; otherwise the total of
      every child's height plus 20, less the last 20. */
  function TreeHeight(n: MindMapNode): (h: int)
    ensures h >= 40
    decreases n, 1
  {
    if !IsExpanded(n) then 40 else StackedHeight(n.children) - 20
  }

  /** The running total of the loop of `calculateTreeHeight`: each child's height plus 20. */
  function StackedHeight(ts: seq<MindMapNode>): (r: int)
    ensures r >= 60 * |ts|
    decreases ts, 0
  {
    if ts == [] then 0 else StackedHeight(ts[..|ts| - 1]) + TreeHeight(ts[|ts| - 1]) + 20
  }

  /** The plain sum of the heights of some subtrees. */
  function SumHeights(ts: seq<MindMapNode>): int
  {
    if ts == [] then 0 else SumHeights(ts[..|ts| - 1]) + TreeHeight(ts[|ts| - 1])
  }

  lemma {:induction false} StackedIsSumPlusGaps(ts: seq<MindMapNode>)
    ensures StackedHeight(ts) == SumHeights(ts) + 20 * |ts|
    decreases |ts|
  {
    if ts != [] {
      StackedIsSumPlusGaps(ts[..|ts| - 1]);
    }
  }

  /** The height of an expanded node is the sum of its children's heights plus 20 for every gap
      between two of them. */
  lemma HeightOfExpanded(n: MindMapNode)
    requires IsExpanded(n)
    ensures TreeHeight(n) == SumHeights(n.children) + 20 * (|n.children| - 1)
  {
    StackedIsSumPlusGaps(n.children);
  }

  /** Every child's share, and 60 units for each of the others, fit in the stacked total. */
  lemma {:induction false} StackedCoversEach(ts: seq<MindMapNode>, i: nat)
    requires i < |ts|
    ensures StackedHeight(ts) >= TreeHeight(ts[i]) + 20 + 60 * (|ts| - 1)
    decreases |ts|
  {
    var last := |ts| - 1;
    if i < last {
      StackedCoversEach(ts[..last], i);
    } else {
      assert StackedHeight(ts[..last]) >= 60 * last;
    }
  }

  /** An expanded node is at least as tall as each child, and taller by 60 for every sibling. */
  lemma HeightCoversChild(n: MindMapNode, i: nat)
    requires IsExpanded(n) && i < |n.children|
    ensures TreeHeight(n) >= TreeHeight(n.children[i]) + 60 * (|n.children| - 1)
  {
    StackedCoversEach(n.children, i);
  }

  /** Collapsing a node brings its height down to 40, never up; it gets strictly smaller only
      when the node has two children or more, or one child that is itself more than 40 tall. */
  lemma CollapseHeight(n: MindMapNode)
    requires |n.children| > 0
    ensures TreeHeight(n.(collapsed := true)) == 40 <= TreeHeight(n)
    ensures !n.collapsed ==>
      (TreeHeight(n.(collapsed := true)) < TreeHeight(n)
       <==> |n.children| >= 2 || TreeHeight(n.children[0]) > 40)
  {
    if !n.collapsed {
      HeightOfExpanded(n);
      if |n.children| >= 2 {
        StackedCoversEach(n.children, 0);
      } else {
        assert n.children[..0] == [];
      }
    }
  }

  /** `Math.max`. */
  function Max(a: int, b: int): int {
    if a >= b then a else b
  }

  /** `calculateTreeWidth`: the label's width plus 30 or, when the children are drawn, each
      child's width plus 100, whichever is largest. */
  function TreeWidth(n: MindMapNode): (w: int)
    ensures w >= TextWidth(n.text) + 30
    decreases n, 1
  {
    if !IsExpanded(n) then TextWidth(n.text) + 30 else WidthFrom(TextWidth(n.text) + 30, n.children)
  }

  /** The running maximum of the loop of `calculateTreeWidth`, started at `start`. */
  function WidthFrom(start: int, ts: seq<MindMapNode>): (w: int)
    ensures w >= start
    ensures forall i :: 0 <= i < |ts| ==> w >= TreeWidth(ts[i]) + 100
    ensures w == start || exists i :: 0 <= i < |ts| && w == TreeWidth(ts[i]) + 100
    decreases ts, 0
  {
    if ts == [] then start
    else
      var prev := WidthFrom(start, ts[..|ts| - 1]);
      assert forall i :: 0 <= i < |ts| - 1 ==> ts[..|ts| - 1][i] == ts[i];
      Max(prev, TreeWidth(ts[|ts| - 1]) + 100)
  }

  /** How far right each drawn node's label reaches, measured from the tree's own left edge:
      its width plus 30, and 100 more for every level below the top. */
  function Extents(n: MindMapNode): seq<int>
    decreases n, 1
  {
    [TextWidth(n.text) + 30] + (if IsExpanded(n) then ExtentsOf(n.children) else [])
  }

  function ExtentsOf(ts: seq<MindMapNode>): seq<int>
    decreases ts, 0
  {
    if ts == [] then [] else ExtentsOf(ts[..|ts| - 1]) + Shift(Extents(ts[|ts| - 1]), 100)
  }

  function Shift(xs: seq<int>, d: int): (r: seq<int>)
    ensures |r| == |xs|
  {
    seq(|xs|, i requires 0 <= i < |xs| => xs[i] + d)
  }

  /** The width of a tree is the reach of its farthest-reaching drawn node. */
  lemma {:induction false} WidthIsWidestExtent(n: MindMapNode)
    ensures TreeWidth(n) in Extents(n)
    ensures forall i :: 0 <= i < |Extents(n)| ==> Extents(n)[i] <= TreeWidth(n)
    decreases n, 1
  {
    if IsExpanded(n) {
      var own := TextWidth(n.text) + 30;
      WidthFromBounds(own, n.children);
      WidthFromAttained(own, n.children);
      assert Extents(n) == [own] + ExtentsOf(n.children);
      forall i | 0 <= i < |Extents(n)| ensures Extents(n)[i] <= TreeWidth(n) {
        if i > 0 { assert Extents(n)[i] == ExtentsOf(n.children)[i - 1]; }
      }
    }
  }

  lemma {:induction false} WidthFromBounds(start: int, ts: seq<MindMapNode>)
    ensures forall i :: 0 <= i < |ExtentsOf(ts)| ==> ExtentsOf(ts)[i] <= WidthFrom(start, ts)
    decreases ts, 0
  {
    if ts != [] {
      var front := ts[..|ts| - 1];
      var last := ts[|ts| - 1];
      WidthFromBounds(start, front);
      WidthIsWidestExtent(last);
      var w := WidthFrom(start, ts);
      var m := |ExtentsOf(front)|;
      forall i | 0 <= i < |ExtentsOf(ts)| ensures ExtentsOf(ts)[i] <= w {
        if i >= m {
          assert ExtentsOf(ts)[i] == Extents(last)[i - m] + 100;
        } else {
          assert ExtentsOf(ts)[i] == ExtentsOf(front)[i];
        }
      }
    }
  }

  lemma {:induction false} WidthFromAttained(start: int, ts: seq<MindMapNode>)
    ensures WidthFrom(start, ts) == start || WidthFrom(start, ts) in ExtentsOf(ts)
    decreases ts, 0
  {
    if ts != [] {
      var front := ts[..|ts| - 1];
      var last := ts[|ts| - 1];
      var w := WidthFrom(start, ts);
      var ef := ExtentsOf(front);
      var el := Extents(last);
      assert ExtentsOf(ts) == ef + Shift(el, 100);
      if w == WidthFrom(start, front) {
        WidthFromAttained(start, front);
        if w != start {
          var k :| 0 <= k < |ef| && ef[k] == w;
          assert (ef + Shift(el, 100))[k] == w;
        }
      } else {
        assert w == TreeWidth(last) + 100;
        WidthIsWidestExtent(last);
        var k :| 0 <= k < |el| && el[k] == TreeWidth(last);
        assert (ef + Shift(el, 100))[|ef| + k] == w;
      }
    }
  }

  // ---------------------------------------------------------------------------------------
  // The loops of the source

  /** `calculateTreeHeight` as written: a recursive method that adds up each child's height
      plus 20 and drops the last 20. */
  method CalculateTreeHeight(node: MindMapNode) returns (h: int)
    ensures h == TreeHeight(node)
    decreases node
  {
    if |node.children| == 0 || node.collapsed {
      return 40;
    }
    var total := 0;
    var i := 0;
    while i < |node.children|
      invariant i <= |node.children|
      invariant total == StackedHeight(node.children[..i])
    {
      var child := node.children[i];
      var childHeight := CalculateTreeHeight(child);
      assert node.children[..i + 1][..i] == node.children[..i];
      total := total + childHeight + 20;
      i := i + 1;
    }
    assert node.children[..i] == node.children;
    h := total - 20;
  }

  /** `calculateTreeWidth` as written: a running maximum over the children. */
  method CalculateTreeWidth(node: MindMapNode) returns (w: int)
    ensures w == TreeWidth(node)
    decreases node
  {
    if |node.children| == 0 || node.collapsed {
      return TextWidth(node.text) + 30;
    }
    var maxWidth := TextWidth(node.text) + 30;
    var i := 0;
    while i < |node.children|
      invariant i <= |node.children|
      invariant maxWidth == WidthFrom(TextWidth(node.text) + 30, node.children[..i])
    {
      var childWidth := CalculateTreeWidth(node.children[i]);
      assert node.children[..i + 1][..i] == node.children[..i];
      maxWidth := Max(maxWidth, childWidth + 100);
      i := i + 1;
    }
    assert node.children[..i] == node.children;
    w := maxWidth;
  }
}
