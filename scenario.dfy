/** A worked example: a list with one top item and two nested
    items parses to that top item with the two nested ones as its children. */
module Scenario {
  import opened Text
  import opened Tree
  import opened Parser
  import ParseOrder
  import opened Layout
  import opened Renderer

  const Example: string := "- A\n  - B\n  - C"

  /** The tree of the example: A, with the leaves B and C. */
  const Parsed: MindMapNode := MindMapNode(LineId(0), "A",
    [MindMapNode(LineId(1), "B", [], false), MindMapNode(LineId(2), "C", [], false)], false)

  lemma ExampleParents(lv: seq<nat>)
    requires lv == [0, 1, 1]
    ensures ParentOf(lv, 1) == 0 && ParentOf(lv, 2) == 1 && ParentOf(lv, 3) == 1
  {
    assert NearestBelow(lv, 3, 2) == NearestBelow(lv, 3, 1);
    assert NearestBelow(lv, 2, 1) == 1;
  }

  lemma ExampleKids(lv: seq<nat>)
    requires lv == [0, 1, 1]
    ensures ChildrenIn(lv, 0, 1, 4) == [1]
    ensures ChildrenIn(lv, 1, 1, 4) == [2, 3]
    ensures ChildrenIn(lv, 2, 1, 4) == [] && ChildrenIn(lv, 3, 1, 4) == []
  {
    ExampleParents(lv);
    assert ChildrenIn(lv, 0, 4, 4) == [];
    assert ChildrenIn(lv, 0, 3, 4) == [];
    assert ChildrenIn(lv, 0, 2, 4) == [];
    assert ChildrenIn(lv, 1, 4, 4) == [];
    assert ChildrenIn(lv, 1, 3, 4) == [3];
    assert ChildrenIn(lv, 1, 2, 4) == [2, 3];
    assert ChildrenIn(lv, 1, 1, 4) == [2, 3];
  }

  /** Three lines without line feeds, joined with line feeds, split back into those lines. */
  lemma ThreeLines(a: string, b: string, c: string)
    requires '\n' !in a && '\n' !in b && '\n' !in c
    ensures Split(a + "\n" + b + "\n" + c) == [a, b, c]
  {
    var ls := [a, b, c];
    assert Join(ls[2..]) == c;
    assert Join(ls[1..]) == b + "\n" + c;
    assert Join(ls) == a + "\n" + b + "\n" + c;
    SplitJoin(ls);
  }

  /** The blank-line filter keeps three lines that are not blank. */
  lemma ThreeNonBlank(a: string, b: string, c: string)
    requires !AllWhitespace(a) && !AllWhitespace(b) && !AllWhitespace(c)
    ensures NonBlank([a, b, c]) == [a, b, c]
  {
    var ls := [a, b, c];
    assert NonBlank(ls[3..]) == [];
    assert NonBlank(ls[2..]) == [c];
    assert NonBlank(ls[1..]) == [b, c];
  }

  /** A list item `p- x` with an indentation p of whitespace and a bare, non-empty x. */
  lemma DashLine(line: string, p: string, x: string)
    requires line == p + "- " + x
    requires AllWhitespace(p) && Bare(x) && x != [] && '\n' !in line
    ensures !AllWhitespace(line)
    ensures NodeText(line) == x && IndentLevel(line) == |p| / 2
  {
    assert line == p + ['-'] + " " + x + "";
    assert line == p + ['-'] + (" " + x);
    assert line[|p|] == '-';
    ParseOrder.ItemText(p, '-', " ", x, "");
    ParseOrder.ItemLevel(p, '-', " " + x);
  }

  lemma TopLine(a: string)
    requires a == "- A"
    ensures '\n' !in a && !AllWhitespace(a)
    ensures NodeText(a) == "A" && IndentLevel(a) == 0
  {
    assert a == "" + "- " + "A";
    DashLine(a, "", "A");
  }

  /** A nested item of the example, `- x` indented by two spaces. */
  lemma NestedLine(line: string, x: string)
    requires line == "  - " + x && |x| == 1 && x[0] in "BC"
    ensures '\n' !in line && !AllWhitespace(line)
    ensures NodeText(line) == x && IndentLevel(line) == 1
  {
    assert line == "  " + "- " + x;
    DashLine(line, "  ", x);
  }

  lemma ThreeLevels(a: string, b: string, c: string, la: nat, lb: nat, lc: nat)
    requires IndentLevel(a) == la && IndentLevel(b) == lb && IndentLevel(c) == lc
    ensures Levels([a, b, c]) == [la, lb, lc]
  {
  }

  /** The node of a slot without children. */
  lemma LeafSlot(texts: seq<string>, kids: seq<seq<nat>>, s: nat)
    requires |kids| == |texts| + 1 && Wf(kids) && s < |kids| && kids[s] == []
    ensures NodeAtSlot(texts, kids, s) == MindMapNode(SlotId(s), SlotText(texts, s), [], false)
  {
  }

  /** The node of a slot with two children. */
  lemma PairSlot(texts: seq<string>, kids: seq<seq<nat>>, s: nat, c: nat, d: nat)
    requires |kids| == |texts| + 1 && Wf(kids) && s < |kids| && kids[s] == [c, d]
    ensures s < c < |kids| && s < d < |kids|
    ensures NodeAtSlot(texts, kids, s)
         == MindMapNode(SlotId(s), SlotText(texts, s), [NodeAtSlot(texts, kids, c), NodeAtSlot(texts, kids, d)], false)
  {
    assert kids[s][0] == c && kids[s][1] == d;
    assert Subtrees(texts, kids, s, kids[s]) == [NodeAtSlot(texts, kids, c), NodeAtSlot(texts, kids, d)];
  }

  lemma ExampleArena(texts: seq<string>, lv: seq<nat>)
    requires |texts| == 3 && texts[0] == "A" && texts[1] == "B" && texts[2] == "C"
    requires lv == [0, 1, 1]
    ensures TreeOf(texts, lv) == Parsed
  {
    ExampleKids(lv);
    var kids := SpecKids(lv);
    assert kids[0] == [1] && kids[1] == [2, 3] && kids[2] == [] && kids[3] == [];
    LeafSlot(texts, kids, 2);
    LeafSlot(texts, kids, 3);
    PairSlot(texts, kids, 1, 2, 3);
  }

  /** `- A`, with `- B` and `- C` indented under it, gives the tree A(B, C), every node
      expanded. */
  lemma ExampleParse()
    ensures Parse(Example) == Some(Parsed)
  {
    var a, b, c := "- A", "  - " + "B", "  - " + "C";
    assert Example == a + "\n" + b + "\n" + c;
    TopLine(a);
    NestedLine(b, "B");
    NestedLine(c, "C");
    ThreeLines(a, b, c);
    ThreeNonBlank(a, b, c);
    ThreeLevels(a, b, c, 0, 1, 1);
    var ls := [a, b, c];
    assert NonBlank(Split(Example)) == ls;
    assert Parse(Example) == Some(TreeOf(NodeTexts(ls), Levels(ls)));
    ExampleArena(NodeTexts(ls), Levels(ls));
  }

  lemma ExampleShowsThree()
    ensures IsExpanded(Parsed) && |VisiblePreorder(Parsed)| == 3
  {
    var t := Parsed;
    assert t.children[..1] == [t.children[0]];
    assert VisibleFlatten(t.children[..1]) == VisiblePreorder(t.children[0]);
  }

  /** A click on A in the example. As written, the refresh parses the example again: all three
      nodes stay drawn and no fold indicator appears. With the fold kept, only A is drawn, with
      its fold indicator. */
  lemma ExampleFold()
    ensures Parse(Example) == Some(Parsed) && Present(Some(Parsed)).Diagram?
    ensures |Shown(Present(Some(Parsed)).elements)| == 3
    ensures NoIndicator(Present(Some(Parsed)).elements)
    ensures Present(Some(ToggleAt(Parsed, []))).Diagram?
    ensures |Shown(Present(Some(ToggleAt(Parsed, []))).elements)| == 1
    ensures !NoIndicator(Present(Some(ToggleAt(Parsed, []))).elements)
  {
    ExampleParse();
    ExampleShowsThree();
    LayoutShowsVisible(Parsed, 50.0, 300.0, 0);
    IndicatorNeverDrawn(Example);
    FoldKeptHidesDescendants(Parsed, []);
  }
}
