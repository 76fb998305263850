/** What the tree `parseMarkdownList` builds says about the document: read parents before
    children, it lists the lines in the order they were written, and nothing in it is folded. */
module ParseOrder {
  import opened Text
  import opened Tree
  import opened Parser

  /** The first slot after s that is not deeper than s (or one past the last slot): the slots
      strictly between are the lines nested under s. */
  function End(lv: seq<nat>, s: nat): (e: nat)
    requires s <= |lv|
    ensures s < e <= |lv| + 1
    ensures forall t :: s < t < e ==> SlotLevel(lv, t) > SlotLevel(lv, s)
    ensures e <= |lv| ==> SlotLevel(lv, e) <= SlotLevel(lv, s)
  {
    Scan(lv, s, s + 1)
  }

  function Scan(lv: seq<nat>, s: nat, t: nat): (e: nat)
    requires s < t <= |lv| + 1
    requires forall u :: s < u < t ==> SlotLevel(lv, u) > SlotLevel(lv, s)
    ensures t <= e <= |lv| + 1
    ensures forall u :: s < u < e ==> SlotLevel(lv, u) > SlotLevel(lv, s)
    ensures e <= |lv| ==> SlotLevel(lv, e) <= SlotLevel(lv, s)
    decreases |lv| + 1 - t
  {
    if t > |lv| || SlotLevel(lv, t) <= SlotLevel(lv, s) then t else Scan(lv, s, t + 1)
  }

  /** The labels of the slots in [a, b), in order. */
  function SlotLabels(texts: seq<string>, a: nat, b: nat): (r: seq<Label>)
    requires a <= b <= |texts| + 1
    ensures |r| == b - a
  {
    seq(b - a, j requires 0 <= j < b - a => (SlotId(a + j), SlotText(texts, a + j)))
  }

  /** The labels of the lines: the k-th non-blank line is node `LineId(k)` with its text. */
  function LineLabels(texts: seq<string>): (r: seq<Label>)
    ensures |r| == |texts|
  {
    seq(|texts|, k requires 0 <= k < |texts| => (LineId(k), texts[k]))
  }

  lemma SlotLabelsCons(texts: seq<string>, a: nat, b: nat)
    requires a < b <= |texts| + 1
    ensures SlotLabels(texts, a, b) == [(SlotId(a), SlotText(texts, a))] + SlotLabels(texts, a + 1, b)
  {
  }

  lemma SlotLabelsSplit(texts: seq<string>, a: nat, m: nat, b: nat)
    requires a <= m <= b <= |texts| + 1
    ensures SlotLabels(texts, a, b) == SlotLabels(texts, a, m) + SlotLabels(texts, m, b)
  {
  }

  lemma SubtreesCons(texts: seq<string>, kids: seq<seq<nat>>, s: nat, c: nat, rest: seq<nat>)
    requires |kids| == |texts| + 1 && Wf(kids) && s < c < |kids|
    requires forall j :: 0 <= j < |rest| ==> s < rest[j] < |kids|
    ensures Subtrees(texts, kids, s, [c] + rest)
         == [NodeAtSlot(texts, kids, c)] + Subtrees(texts, kids, s, rest)
  {
  }

  lemma SubtreesAt(texts: seq<string>, kids: seq<seq<nat>>, s: nat, cs: seq<nat>, j: nat)
    requires |kids| == |texts| + 1 && Wf(kids) && s < |kids|
    requires forall j :: 0 <= j < |cs| ==> s < cs[j] < |kids|
    requires j < |cs|
    ensures Subtrees(texts, kids, s, cs)[j] == NodeAtSlot(texts, kids, cs[j])
  {
  }

  /** No line after the block nested under s is a child of s. */
  lemma NoKidsAfter(lv: seq<nat>, s: nat)
    requires s <= |lv|
    ensures ChildrenIn(lv, s, End(lv, s), |lv| + 1) == []
  {
    var e := End(lv, s);
    forall c | e <= c < |lv| + 1 ensures ParentOf(lv, c) != s {
      if c > e {
        assert SlotLevel(lv, e) <= SlotLevel(lv, s);
      }
    }
    ChildrenInNone(lv, s, e, |lv| + 1);
  }

  /** The children of s all lie between s and End(s). */
  lemma KidsRange(lv: seq<nat>, s: nat)
    requires s <= |lv|
    ensures ChildrenIn(lv, s, 1, |lv| + 1) == ChildrenIn(lv, s, s + 1, End(lv, s))
  {
    var n := |lv|;
    ChildrenInSplit(lv, s, 1, s + 1, n + 1);
    ChildrenInSplit(lv, s, s + 1, End(lv, s), n + 1);
    ChildrenInNone(lv, s, 1, s + 1);
    NoKidsAfter(lv, s);
  }

  /** The block nested under a child a of s ends inside s's block; where it ends before s's
      block does, the next line is the next child of s. */
  lemma ChainEnd(lv: seq<nat>, s: nat, a: nat)
    requires s <= |lv|
    requires s < a < End(lv, s) && IsParent(lv, a, s)
    ensures End(lv, a) <= End(lv, s)
    ensures End(lv, a) < End(lv, s) ==> IsParent(lv, End(lv, a), s)
  {
    var f := End(lv, s);
    if f <= |lv| {
      assert SlotLevel(lv, f) < SlotLevel(lv, a);
    }
  }

  /** No line nested under a child a of s is itself a child of s. */
  lemma NestedNotKids(lv: seq<nat>, s: nat, a: nat)
    requires s <= |lv|
    requires s < a < End(lv, s) && IsParent(lv, a, s)
    ensures ChildrenIn(lv, s, a + 1, End(lv, a)) == []
  {
    var e := End(lv, a);
    forall c | a < c < e ensures ParentOf(lv, c) != s {
      assert SlotLevel(lv, c) > SlotLevel(lv, a);
    }
    ChildrenInNone(lv, s, a + 1, e);
  }

  /** After a child a of s come the lines nested under a, and then (if s has more lines under
      it) the next child of s. */
  lemma ChainStep(lv: seq<nat>, s: nat, a: nat)
    requires s <= |lv|
    requires s < a < End(lv, s) && IsParent(lv, a, s)
    ensures End(lv, a) <= End(lv, s)
    ensures ChildrenIn(lv, s, a, End(lv, s)) == [a] + ChildrenIn(lv, s, End(lv, a), End(lv, s))
    ensures End(lv, a) < End(lv, s) ==> IsParent(lv, End(lv, a), s)
  {
    ChainEnd(lv, s, a);
    ParentUnique(lv, a, s, ParentOf(lv, a));
    NestedNotKids(lv, s, a);
    ChildrenInSplit(lv, s, a + 1, End(lv, a), End(lv, s));
  }

  /** The subtrees of s's children from child a on, flattened, are the slots from a up to the
      end of s's nested block. */
  lemma {:induction false} Group(texts: seq<string>, lv: seq<nat>, kids: seq<seq<nat>>, s: nat, a: nat)
    requires |texts| == |lv| && kids == SpecKids(lv) && s <= |lv|
    requires s < a <= End(lv, s)
    requires a < End(lv, s) ==> IsParent(lv, a, s)
    ensures Flatten(Subtrees(texts, kids, s, ChildrenIn(lv, s, a, End(lv, s))))
         == SlotLabels(texts, a, End(lv, s))
    decreases |lv| + 1 - s, 0, End(lv, s) - a
  {
    var f := End(lv, s);
    if a < f {
      var e := End(lv, a);
      ChainStep(lv, s, a);
      var rest := ChildrenIn(lv, s, e, f);
      SubtreesCons(texts, kids, s, a, rest);
      FlattenCons(NodeAtSlot(texts, kids, a), Subtrees(texts, kids, s, rest));
      Subtree(texts, lv, kids, a);
      Group(texts, lv, kids, s, e);
      SlotLabelsSplit(texts, a, e, f);
    }
  }

  /** The preorder of the node of slot s lists s and then every line nested under it, in
      document order. */
  lemma {:induction false} Subtree(texts: seq<string>, lv: seq<nat>, kids: seq<seq<nat>>, s: nat)
    requires |texts| == |lv| && kids == SpecKids(lv) && s <= |lv|
    ensures Preorder(NodeAtSlot(texts, kids, s)) == SlotLabels(texts, s, End(lv, s))
    decreases |lv| + 1 - s, 1, 0
  {
    var f := End(lv, s);
    KidsRange(lv, s);
    Group(texts, lv, kids, s, s + 1);
    SlotLabelsCons(texts, s, f);
  }

  /** Every later line is indented more deeply than the first, so all of them hang below it. */
  predicate SingleTop(lv: seq<nat>) {
    forall k :: 1 <= k < |lv| ==> lv[k] > lv[0]
  }

  /** The synthetic root is shallower than every line, so every line is nested under it. */
  lemma RootSpansAll(lv: seq<nat>)
    ensures End(lv, 0) == |lv| + 1
  {
    var e := End(lv, 0);
    assert e <= |lv| ==> SlotLevel(lv, e) >= 0;
  }

  lemma LabelsOfLines(texts: seq<string>)
    ensures SlotLabels(texts, 1, |texts| + 1) == LineLabels(texts)
  {
    forall k | 0 <= k < |texts|
      ensures SlotLabels(texts, 1, |texts| + 1)[k] == LineLabels(texts)[k]
    {
      assert SlotId(1 + k) == LineId(k);
    }
  }

  /** The first line spans the whole list exactly when every later line is deeper. */
  lemma FirstSpansAll(lv: seq<nat>)
    requires |lv| >= 1
    ensures End(lv, 1) == |lv| + 1 <==> SingleTop(lv)
  {
    var e := End(lv, 1);
    if e == |lv| + 1 {
      forall k | 1 <= k < |lv| ensures lv[k] > lv[0] {
        assert SlotLevel(lv, k + 1) > SlotLevel(lv, 1);
      }
    } else {
      assert SlotLevel(lv, e) <= SlotLevel(lv, 1);
    }
  }

  /** The first line is always a child of the synthetic root; it is the only one exactly when
      it spans the whole list. */
  lemma RootKids(lv: seq<nat>)
    requires |lv| >= 1
    ensures var k0 := ChildrenIn(lv, 0, 1, |lv| + 1);
      |k0| >= 1 && k0[0] == 1 && (|k0| == 1 <==> End(lv, 1) == |lv| + 1)
  {
    var n := |lv|;
    RootSpansAll(lv);
    ChainStep(lv, 0, 1);
    var e := End(lv, 1);
    if e < n + 1 {
      ParentUnique(lv, e, 0, ParentOf(lv, e));
      assert ChildrenIn(lv, 0, e, n + 1) == [e] + ChildrenIn(lv, 0, e + 1, n + 1);
    }
  }

  /** Read parents before children, the tree of a list of lines gives every line exactly once,
      in document order; the synthetic root comes first unless the first line is the only
      top-level one, in which case that line's node is the tree. */
  lemma TreeOfInOrder(texts: seq<string>, lv: seq<nat>)
    requires |texts| == |lv| >= 1
    ensures Preorder(TreeOf(texts, lv))
         == (if SingleTop(lv) then [] else [(RootId, "Root")]) + LineLabels(texts)
  {
    var kids := SpecKids(lv);
    RootSpansAll(lv);
    LabelsOfLines(texts);
    RootKids(lv);
    FirstSpansAll(lv);
    if SingleTop(lv) {
      Subtree(texts, lv, kids, 1);
    } else {
      Subtree(texts, lv, kids, 0);
      SlotLabelsCons(texts, 0, |lv| + 1);
    }
  }

  /** Every non-blank line gives exactly one node, and the preorder of the result lists them in
      document order, after the synthetic root unless the first line is the only top-level one. */
  lemma ParseListsLinesInOrder(text: string)
    requires Parse(text).Some?
    ensures var lines := NonBlank(Split(text));
      Preorder(Parse(text).value)
        == (if SingleTop(Levels(lines)) then [] else [(RootId, "Root")]) + LineLabels(NodeTexts(lines))
  {
    var lines := NonBlank(Split(text));
    TreeOfInOrder(NodeTexts(lines), Levels(lines));
  }

  /** The parse gives `null` exactly when the text holds nothing but whitespace. */
  lemma ParseNoneIffBlank(text: string)
    ensures Parse(text).None? <==> AllWhitespace(text)
  {
    NothingLeftIffAllWhitespace(text);
  }

  /** Every node the parse creates starts expanded. */
  lemma {:induction false} NodeAtSlotExpanded(texts: seq<string>, kids: seq<seq<nat>>, s: nat)
    requires |kids| == |texts| + 1 && Wf(kids) && s < |kids|
    ensures AllExpanded(NodeAtSlot(texts, kids, s))
    decreases |kids| - s
  {
    var t := NodeAtSlot(texts, kids, s);
    forall j | 0 <= j < |t.children| ensures AllExpanded(t.children[j]) {
      SubtreesAt(texts, kids, s, kids[s], j);
      NodeAtSlotExpanded(texts, kids, kids[s][j]);
    }
  }

  lemma ParseAllExpanded(text: string)
    requires Parse(text).Some?
    ensures AllExpanded(Parse(text).value)
  {
    var lines := NonBlank(Split(text));
    var kids := SpecKids(Levels(lines));
    var texts := NodeTexts(lines);
    if |kids[0]| == 1 {
      NodeAtSlotExpanded(texts, kids, kids[0][0]);
    } else {
      NodeAtSlotExpanded(texts, kids, 0);
    }
  }

  /** The text of an item line (indentation p, a `-` or `*` marker, whitespace g, the item's
      text x, trailing whitespace q) is x. */
  lemma ItemText(p: string, m: char, g: string, x: string, q: string)
    requires AllWhitespace(p) && AllWhitespace(g) && AllWhitespace(q) && Bare(x)
    requires m == '-' || m == '*'
    ensures NodeText(p + [m] + g + x + q) == x
  {
    var line := p + [m] + g + x + q;
    if x == [] {
      assert line == p + [m] + (g + q);
      AllWhitespaceConcat(g, q);
      TrimOfPadded(p, [m], g + q);
      assert [m] + g + x == [m] + g;
    } else {
      var core := [m] + g + x;
      assert line == p + core + q;
      MarkerBare(m, g, x);
      TrimOfPadded(p, core, q);
    }
    StripOfMarked(m, g, x);
    TrimBare(x);
  }

  /** The level of an item line is half its indentation, rounded down. */
  lemma ItemLevel(p: string, m: char, y: string)
    requires AllWhitespace(p) && (m == '-' || m == '*')
    ensures IndentLevel(p + [m] + y) == |p| / 2
  {
    assert p + [m] + y == p + ([m] + y);
    assert ([m] + y)[0] == m;
    PlainLevel(p, [m] + y);
  }

  /** A line without a marker: its text is the line without its surrounding whitespace. */
  lemma PlainText(p: string, x: string, q: string)
    requires AllWhitespace(p) && AllWhitespace(q) && Bare(x) && x != []
    requires x[0] != '-' && x[0] != '*'
    ensures NodeText(p + x + q) == x
  {
    TrimOfPadded(p, x, q);
    assert StripMarker(x) == x;
    TrimBare(x);
  }

  lemma PlainLevel(p: string, y: string)
    requires AllWhitespace(p) && y != [] && !IsWhitespace(y[0])
    ensures IndentLevel(p + y) == |p| / 2
  {
    LeadingOfPadded(p, y);
  }

  lemma MarkerBare(m: char, g: string, x: string)
    requires m == '-' || m == '*'
    requires Bare(x) && x != []
    ensures Bare([m] + g + x)
  {
    assert ([m] + g + x)[0] == m;
    assert ([m] + g + x)[|[m] + g + x| - 1] == x[|x| - 1];
  }

  /** Stripping the marker removes it and the whitespace after it. */
  lemma StripOfMarked(m: char, g: string, x: string)
    requires m == '-' || m == '*'
    requires AllWhitespace(g) && Bare(x)
    ensures StripMarker([m] + g + x) == x
  {
    var core := [m] + g + x;
    assert core[0] == m;
    assert core[1..] == g + x;
    if x == [] {
      assert g + x == g;
      assert TrimStart(g) == [];
    } else {
      LeadingOfPadded(g, x);
      assert (g + x)[|g|..] == x;
    }
  }
}
