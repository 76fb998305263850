/** `parseMarkdownList` of src/main.ts: an indented list, one item per non-blank line,
    turned into a tree with a stack of (node, level) pairs.

    The nodes the loop creates are numbered by slots: slot 0 is the synthetic root (level -1),
    slot k + 1 is the node of the k-th non-blank line. The node objects whose `children` arrays
    the loop appends to are modelled as an arena: `kids[s]` is the children array of slot s. */
module Parser {
  import opened Text
  import opened Tree

  /** `Math.floor(line.search(/\S|$/) / 2)`: two leading whitespace characters per level. */
  function IndentLevel(line: string): (k: nat)
    ensures 2 * k <= LeadingWhitespace(line) < 2 * k + 2
  {
    LeadingWhitespace(line) / 2
  }

  /** `.replace(/^[-*]\s*\/, '')`: one leading `-` or `*` and the whitespace after it. */
  function StripMarker(t: string): string {
    if |t| > 0 && (t[0] == '-' || t[0] == '*') then TrimStart(t[1..]) else t
  }

  /** The text of the node a line creates. */
  function NodeText(line: string): string {
    Trim(StripMarker(Trim(line)))
  }

  function Levels(lines: seq<string>): (lv: seq<nat>)
    ensures |lv| == |lines|
  {
    seq(|lines|, k requires 0 <= k < |lines| => IndentLevel(lines[k]))
  }

  function NodeTexts(lines: seq<string>): (ts: seq<string>)
    ensures |ts| == |lines|
  {
    seq(|lines|, k requires 0 <= k < |lines| => NodeText(lines[k]))
  }

  // ---------------------------------------------------------------------------------------
  // Slots and the parent relation

  function SlotLevel(lv: seq<nat>, s: nat): int
    requires s <= |lv|
  {
    if s == 0 then -1 else lv[s - 1]
  }

  function SlotId(s: nat): NodeId {
    if s == 0 then RootId else LineId(s - 1)
  }

  function SlotText(texts: seq<string>, s: nat): string
    requires s <= |texts|
  {
    if s == 0 then "Root" else texts[s - 1]
  }

  /** p is the parent of slot c: the nearest earlier slot whose level is strictly smaller. */
  ghost predicate IsParent(lv: seq<nat>, c: nat, p: nat)
    requires 1 <= c <= |lv|
  {
    && p < c
    && SlotLevel(lv, p) < SlotLevel(lv, c)
    && forall q :: p < q < c ==> SlotLevel(lv, q) >= SlotLevel(lv, c)
  }

  lemma ParentUnique(lv: seq<nat>, c: nat, p: nat, p': nat)
    requires 1 <= c <= |lv| && IsParent(lv, c, p) && IsParent(lv, c, p')
    ensures p == p'
  {
  }

  function NearestBelow(lv: seq<nat>, c: nat, p: nat): (q: nat)
    requires 1 <= c <= |lv| && p < c
    ensures q <= p && SlotLevel(lv, q) < SlotLevel(lv, c)
    ensures forall r :: q < r <= p ==> SlotLevel(lv, r) >= SlotLevel(lv, c)
  {
    if SlotLevel(lv, p) < SlotLevel(lv, c) then p else NearestBelow(lv, c, p - 1)
  }

  /** The parent the tree gives slot c: the most recent earlier line with a strictly smaller
      level, or the synthetic root when there is none. */
  function ParentOf(lv: seq<nat>, c: nat): (p: nat)
    requires 1 <= c <= |lv|
    ensures IsParent(lv, c, p)
  {
    NearestBelow(lv, c, c - 1)
  }

  /** A line hangs from the synthetic root exactly when no earlier line is less indented. */
  lemma ParentIsRoot(lv: seq<nat>, c: nat)
    requires 1 <= c <= |lv|
    ensures ParentOf(lv, c) == 0 <==> forall q :: 1 <= q < c ==> SlotLevel(lv, q) >= SlotLevel(lv, c)
  {
    var p := ParentOf(lv, c);
    if p != 0 {
      assert SlotLevel(lv, p) < SlotLevel(lv, c);
    }
  }

  /** The slots in [a, b) whose parent is p, in document order. */
  function ChildrenIn(lv: seq<nat>, p: nat, a: nat, b: nat): (r: seq<nat>)
    requires 1 <= a <= b <= |lv| + 1
    ensures forall j :: 0 <= j < |r| ==> a <= r[j] < b && p < r[j]
    decreases b - a
  {
    if a == b then []
    else (if ParentOf(lv, a) == p then [a] else []) + ChildrenIn(lv, p, a + 1, b)
  }

  /** ChildrenIn misses no child and lists them in document order. */
  lemma {:induction false} ChildrenInComplete(lv: seq<nat>, p: nat, a: nat, b: nat)
    requires 1 <= a <= b <= |lv| + 1
    ensures forall c :: a <= c < b && ParentOf(lv, c) == p ==> c in ChildrenIn(lv, p, a, b)
    ensures forall j, k :: 0 <= j < k < |ChildrenIn(lv, p, a, b)| ==>
      ChildrenIn(lv, p, a, b)[j] < ChildrenIn(lv, p, a, b)[k]
    decreases b - a
  {
    if a < b {
      ChildrenInComplete(lv, p, a + 1, b);
    }
  }

  lemma {:induction false} ChildrenInSplit(lv: seq<nat>, p: nat, a: nat, m: nat, b: nat)
    requires 1 <= a <= m <= b <= |lv| + 1
    ensures ChildrenIn(lv, p, a, b) == ChildrenIn(lv, p, a, m) + ChildrenIn(lv, p, m, b)
    decreases m - a
  {
    if a < m {
      ChildrenInSplit(lv, p, a + 1, m, b);
    }
  }

  lemma {:induction false} ChildrenInNone(lv: seq<nat>, p: nat, a: nat, b: nat)
    requires 1 <= a <= b <= |lv| + 1
    requires forall c :: a <= c < b ==> ParentOf(lv, c) != p
    ensures ChildrenIn(lv, p, a, b) == []
    decreases b - a
  {
    if a < b {
      ChildrenInNone(lv, p, a + 1, b);
    }
  }

  /** A well-formed arena: every child slot comes after its parent. */
  predicate Wf(kids: seq<seq<nat>>) {
    forall p, j :: 0 <= p < |kids| && 0 <= j < |kids[p]| ==> p < kids[p][j] < |kids|
  }

  /** The children arrays the parse must produce: each slot's children are exactly the later
      lines whose parent it is, in document order. */
  function SpecKids(lv: seq<nat>): (kids: seq<seq<nat>>)
    ensures |kids| == |lv| + 1 && Wf(kids)
  {
    seq(|lv| + 1, p requires 0 <= p <= |lv| => ChildrenIn(lv, p, 1, |lv| + 1))
  }

  // ---------------------------------------------------------------------------------------
  // Reading the arena back as a tree value

  function NodeAtSlot(texts: seq<string>, kids: seq<seq<nat>>, s: nat): MindMapNode
    requires |kids| == |texts| + 1 && Wf(kids) && s < |kids|
    decreases |kids| - s, 1
  {
    MindMapNode(SlotId(s), SlotText(texts, s), Subtrees(texts, kids, s, kids[s]), false)
  }

  function Subtrees(texts: seq<string>, kids: seq<seq<nat>>, s: nat, cs: seq<nat>): (ts: seq<MindMapNode>)
    requires |kids| == |texts| + 1 && Wf(kids) && s < |kids|
    requires forall j :: 0 <= j < |cs| ==> s < cs[j] < |kids|
    ensures |ts| == |cs|
    decreases |kids| - s, 0
  {
    seq(|cs|, j requires 0 <= j < |cs| => NodeAtSlot(texts, kids, cs[j]))
  }

  /** The tree of the lines with these texts and levels: the synthetic root with every line
      under its parent or, when the root has exactly one child, that child. */
  function TreeOf(texts: seq<string>, lv: seq<nat>): MindMapNode
    requires |texts| == |lv|
  {
    var kids := SpecKids(lv);
    if |kids[0]| == 1 then NodeAtSlot(texts, kids, kids[0][0]) else NodeAtSlot(texts, kids, 0)
  }

  /** The tree an indented list denotes, `null` when no line is left after dropping blank ones. */
  function Parse(text: string): Option<MindMapNode> {
    var lines := NonBlank(Split(text));
    if |lines| == 0 then None else Some(TreeOf(NodeTexts(lines), Levels(lines)))
  }

  // ---------------------------------------------------------------------------------------
  // The loop of the source

  datatype StackEntry = StackEntry(slot: nat, level: int)

  /** What the stack looks like between iterations: the synthetic root at the bottom, slots
      and levels strictly increasing upwards, and every slot skipped between two neighbouring
      entries at least as deep as the upper of the two. */
  ghost predicate StackShape(lv: seq<nat>, stack: seq<StackEntry>, i: nat)
    requires i <= |lv|
  {
    && |stack| >= 1 && stack[0] == StackEntry(0, -1)
    && (forall q :: 0 <= q < |stack| ==> stack[q].slot <= i && stack[q].level == SlotLevel(lv, stack[q].slot))
    && (forall q :: 0 <= q < |stack| - 1 ==> stack[q].slot < stack[q + 1].slot && stack[q].level < stack[q + 1].level)
    && (forall q, c :: 0 <= q < |stack| - 1 && stack[q].slot < c < stack[q + 1].slot && c <= i ==>
          SlotLevel(lv, c) >= stack[q + 1].level)
  }

  /** Popping an entry at least as deep as the new line keeps the shape, and keeps every slot
      above the new top at least as deep as the new line. */
  lemma PopStep(lv: seq<nat>, stack: seq<StackEntry>, i: nat, level: int)
    requires i <= |lv| && StackShape(lv, stack, i) && |stack| > 1
    requires stack[|stack| - 1].level >= level
    requires forall c :: stack[|stack| - 1].slot < c <= i ==> SlotLevel(lv, c) >= level
    ensures StackShape(lv, stack[..|stack| - 1], i)
    ensures forall c :: stack[|stack| - 2].slot < c <= i ==> SlotLevel(lv, c) >= level
  {
    var n := |stack|;
    var s' := stack[..n - 1];
    assert forall q :: 0 <= q < |s'| ==> s'[q] == stack[q];
    forall c | stack[n - 2].slot < c <= i ensures SlotLevel(lv, c) >= level {
      if c < stack[n - 1].slot {
        assert SlotLevel(lv, c) >= stack[n - 1].level;
      }
    }
  }

  /** Pushing the new line's entry on top of its parent keeps the shape. */
  lemma PushStep(lv: seq<nat>, stack: seq<StackEntry>, i: nat, level: int)
    requires i < |lv| && StackShape(lv, stack, i) && level == SlotLevel(lv, i + 1)
    requires stack[|stack| - 1].level < level
    requires forall c :: stack[|stack| - 1].slot < c <= i ==> SlotLevel(lv, c) >= level
    ensures StackShape(lv, stack + [StackEntry(i + 1, level)], i + 1)
  {
    var s' := stack + [StackEntry(i + 1, level)];
    assert forall q :: 0 <= q < |stack| ==> s'[q] == stack[q];
  }

  /** After i lines, every children array holds the lines so far whose parent that slot is. */
  ghost predicate KidsSoFar(lv: seq<nat>, kids: seq<seq<nat>>, i: nat)
    requires i <= |lv|
  {
    |kids| == i + 1 && forall p :: 0 <= p <= i ==> kids[p] == ChildrenIn(lv, p, 1, i + 1)
  }

  /** Appending slot i + 1 to its parent's children keeps every children array equal to
      the lines, so far, whose parent that slot is. */
  lemma KidsStep(lv: seq<nat>, kids: seq<seq<nat>>, i: nat, parent: nat)
    requires i < |lv| && KidsSoFar(lv, kids, i) && parent <= i && parent == ParentOf(lv, i + 1)
    ensures KidsSoFar(lv, kids[parent := kids[parent] + [i + 1]] + [[]], i + 1)
  {
    var kids' := kids[parent := kids[parent] + [i + 1]] + [[]];
    forall p | 0 <= p <= i + 1 ensures kids'[p] == ChildrenIn(lv, p, 1, i + 2) {
      ChildrenInSplit(lv, p, 1, i + 1, i + 2);
      var last := ChildrenIn(lv, p, i + 1, i + 2);
      assert last == (if parent == p then [i + 1] else []);
      if p == i + 1 {
        ChildrenInNone(lv, i + 1, 1, i + 1);
        assert kids'[p] == [];
      } else if p == parent {
        assert kids'[p] == kids[p] + [i + 1];
      } else {
        assert kids'[p] == kids[p];
      }
    }
  }

  lemma PrefixStep<T>(all: seq<T>, done: seq<T>, i: nat)
    requires i < |all| && done == all[..i]
    ensures done + [all[i]] == all[..i + 1]
  {
  }

  /** The inner loop of `parseMarkdownList`: pop every entry at least as deep as the new line,
      never the synthetic root. The entry left on top is the new line's parent. */
  method PopDeeper(stack: seq<StackEntry>, level: int, ghost lv: seq<nat>, ghost i: nat)
    returns (popped: seq<StackEntry>)
    requires i < |lv| && level == SlotLevel(lv, i + 1)
    requires StackShape(lv, stack, i) && stack[|stack| - 1].slot == i
    ensures StackShape(lv, popped, i) && 1 <= |popped|
    ensures popped[|popped| - 1].level < level
    ensures IsParent(lv, i + 1, popped[|popped| - 1].slot)
  {
    popped := stack;
    while |popped| > 1 && popped[|popped| - 1].level >= level
      invariant StackShape(lv, popped, i) && 1 <= |popped|
      invariant forall c :: popped[|popped| - 1].slot < c <= i ==> SlotLevel(lv, c) >= level
    {
      PopStep(lv, popped, i, level);
      popped := popped[..|popped| - 1];
    }
  }

  /** The state between two iterations, after i lines. */
  ghost predicate ArenaInv(lines: seq<string>, texts: seq<string>, kids: seq<seq<nat>>,
                           stack: seq<StackEntry>, i: nat)
  {
    && i <= |lines|
    && texts == NodeTexts(lines)[..i]
    && KidsSoFar(Levels(lines), kids, i)
    && StackShape(Levels(lines), stack, i) && stack[|stack| - 1].slot == i
  }

  /** One iteration, from the point where the stack has been popped to the new line's parent. */
  lemma AttachStep(lines: seq<string>, texts: seq<string>, kids: seq<seq<nat>>,
                   stack: seq<StackEntry>, i: nat)
    requires i < |lines|
    requires texts == NodeTexts(lines)[..i] && KidsSoFar(Levels(lines), kids, i)
    requires StackShape(Levels(lines), stack, i)
    requires stack[|stack| - 1].level < IndentLevel(lines[i])
    requires IsParent(Levels(lines), i + 1, stack[|stack| - 1].slot)
    ensures var parent := stack[|stack| - 1].slot;
      ArenaInv(lines, texts + [NodeText(lines[i])], kids[parent := kids[parent] + [i + 1]] + [[]],
               stack + [StackEntry(i + 1, IndentLevel(lines[i]))], i + 1)
  {
    var lv := Levels(lines);
    var parent := stack[|stack| - 1].slot;
    assert SlotLevel(lv, i + 1) == IndentLevel(lines[i]);
    ParentUnique(lv, i + 1, parent, ParentOf(lv, i + 1));
    KidsStep(lv, kids, i, parent);
    assert forall c :: parent < c <= i ==> SlotLevel(lv, c) >= SlotLevel(lv, i + 1);
    PushStep(lv, stack, i, IndentLevel(lines[i]));
    PrefixStep(NodeTexts(lines), texts, i);
  }

  /** One iteration of the loop of `parseMarkdownList`: trim the line and measure its
      indentation, pop the stack down to the nearest shallower entry, append the new node to
      that entry's children and push the new node. */
  method AddLine(lines: seq<string>, texts: seq<string>, kids: seq<seq<nat>>,
                 stack: seq<StackEntry>, i: nat)
    returns (texts': seq<string>, kids': seq<seq<nat>>, stack': seq<StackEntry>)
    requires i < |lines| && ArenaInv(lines, texts, kids, stack, i)
    ensures ArenaInv(lines, texts', kids', stack', i + 1)
  {
    var line := lines[i];
    var trimmed := Trim(line);
    var level := LeadingWhitespace(line) / 2;
    var nodeText := Trim(StripMarker(trimmed));
    var popped := PopDeeper(stack, level, Levels(lines), i);
    var parent := popped[|popped| - 1].slot;
    AttachStep(lines, texts, kids, popped, i);
    var child: nat := i + 1;
    kids' := kids[parent := kids[parent] + [child]] + [[]];
    texts' := texts + [nodeText];
    stack' := popped + [StackEntry(child, level)];
  }

  /** The loop of `parseMarkdownList` over the non-blank lines. The result is the arena of all
      nodes: their texts and their children arrays. */
  method BuildArena(lines: seq<string>) returns (texts: seq<string>, kids: seq<seq<nat>>)
    ensures texts == NodeTexts(lines)
    ensures kids == SpecKids(Levels(lines))
  {
    texts := [];
    kids := [[]];
    var stack := [StackEntry(0, -1)];
    var i := 0;
    while i < |lines|
      invariant ArenaInv(lines, texts, kids, stack, i)
    {
      texts, kids, stack := AddLine(lines, texts, kids, stack, i);
      i := i + 1;
    }
    WholePrefix(NodeTexts(lines));
    assert KidsSoFar(Levels(lines), kids, |lines|);
    assert kids == SpecKids(Levels(lines));
  }

  lemma WholePrefix<T>(s: seq<T>)
    ensures s[..|s|] == s
  {
  }

  /** `parseMarkdownList`: `null` when every line is blank; otherwise the synthetic root, or its
      only child when it has exactly one. */
  method ParseMarkdownList(text: string) returns (r: Option<MindMapNode>)
    ensures r == Parse(text)
  {
    var lines := NonBlank(Split(text));
    if |lines| == 0 {
      return None;
    }
    var texts, kids := BuildArena(lines);
    if |kids[0]| == 1 {
      r := Some(NodeAtSlot(texts, kids, kids[0][0]));
    } else {
      r := Some(NodeAtSlot(texts, kids, 0));
    }
  }
}
