/** The mind-map node (`MindMapNode` of src/main.ts) as a value, its traversals,
    paths that name a node inside a tree, and the fold updates the click handlers make. */
module Tree {
  import opened Text

  datatype Option<T> = None | Some(value: T)

  /** Node identities: the synthetic root's fixed `'root'`, and one fresh identity per
      non-blank line (the source draws it from `Math.random`; here it is the line's index). */
  datatype NodeId = RootId | LineId(line: nat)

  datatype MindMapNode = MindMapNode(id: NodeId, text: string, children: seq<MindMapNode>, collapsed: bool)

  /** What a traversal reports of a node: its identity and its text. */
  type Label = (NodeId, string)

  /** A node whose children are drawn: it has some and is not collapsed. */
  predicate IsExpanded(n: MindMapNode) {
    |n.children| > 0 && !n.collapsed
  }

  /** All nodes, parents before children, children in order. */
  function Preorder(t: MindMapNode): seq<Label> {
    [(t.id, t.text)] + Flatten(t.children)
  }

  function Flatten(ts: seq<MindMapNode>): seq<Label> {
    if ts == [] then [] else Flatten(ts[..|ts| - 1]) + Preorder(ts[|ts| - 1])
  }

  /** The nodes a drawing shows: the preorder that does not enter collapsed nodes. */
  function VisiblePreorder(t: MindMapNode): seq<Label> {
    [(t.id, t.text)] + (if IsExpanded(t) then VisibleFlatten(t.children) else [])
  }

  function VisibleFlatten(ts: seq<MindMapNode>): seq<Label> {
    if ts == [] then [] else VisibleFlatten(ts[..|ts| - 1]) + VisiblePreorder(ts[|ts| - 1])
  }

  /** No node of the tree is collapsed. */
  predicate AllExpanded(t: MindMapNode) {
    !t.collapsed && forall j :: 0 <= j < |t.children| ==> AllExpanded(t.children[j])
  }

  lemma {:induction false} FlattenConcat(xs: seq<MindMapNode>, ys: seq<MindMapNode>)
    ensures Flatten(xs + ys) == Flatten(xs) + Flatten(ys)
    decreases |ys|
  {
    if ys == [] {
      assert xs + ys == xs;
    } else {
      var ys' := ys[..|ys| - 1];
      assert (xs + ys)[..|xs + ys| - 1] == xs + ys';
      assert (xs + ys)[|xs + ys| - 1] == ys[|ys| - 1];
      FlattenConcat(xs, ys');
    }
  }

  lemma FlattenCons(x: MindMapNode, ts: seq<MindMapNode>)
    ensures Flatten([x] + ts) == Preorder(x) + Flatten(ts)
  {
    FlattenConcat([x], ts);
    assert [x][..0] == [];
  }

  lemma {:induction false} VisibleFlattenConcat(xs: seq<MindMapNode>, ys: seq<MindMapNode>)
    ensures VisibleFlatten(xs + ys) == VisibleFlatten(xs) + VisibleFlatten(ys)
    decreases |ys|
  {
    if ys == [] {
      assert xs + ys == xs;
    } else {
      var ys' := ys[..|ys| - 1];
      assert (xs + ys)[..|xs + ys| - 1] == xs + ys';
      assert (xs + ys)[|xs + ys| - 1] == ys[|ys| - 1];
      VisibleFlattenConcat(xs, ys');
    }
  }

  /** In a tree where nothing is collapsed, the drawing shows every node. */
  lemma {:induction false} AllExpandedShowsAll(t: MindMapNode)
    requires AllExpanded(t)
    ensures VisiblePreorder(t) == Preorder(t)
    decreases t, 1
  {
    AllExpandedShowsAllOf(t.children);
  }

  lemma {:induction false} AllExpandedShowsAllOf(ts: seq<MindMapNode>)
    requires forall j :: 0 <= j < |ts| ==> AllExpanded(ts[j])
    ensures VisibleFlatten(ts) == Flatten(ts)
    decreases ts, 0
  {
    if ts != [] {
      AllExpandedShowsAllOf(ts[..|ts| - 1]);
      AllExpandedShowsAll(ts[|ts| - 1]);
    }
  }

  /** A path of child indices from the root names a node of the tree. */
  predicate IsPath(t: MindMapNode, p: seq<nat>) {
    p == [] || (p[0] < |t.children| && IsPath(t.children[p[0]], p[1..]))
  }

  /** A path to a node that is drawn: every node above it is expanded. */
  predicate IsVisiblePath(t: MindMapNode, p: seq<nat>) {
    p == [] || (!t.collapsed && p[0] < |t.children| && IsVisiblePath(t.children[p[0]], p[1..]))
  }

  function NodeAt(t: MindMapNode, p: seq<nat>): MindMapNode
    requires IsPath(t, p)
  {
    if p == [] then t else NodeAt(t.children[p[0]], p[1..])
  }

  /** `node.collapsed = b` on the node at path p. */
  function SetCollapsed(t: MindMapNode, p: seq<nat>, b: bool): (r: MindMapNode)
    requires IsPath(t, p)
    ensures IsPath(r, p) && NodeAt(r, p) == NodeAt(t, p).(collapsed := b)
    ensures Preorder(r) == Preorder(t)
    ensures r.id == t.id && r.text == t.text && |r.children| == |t.children|
  {
    if p == [] then t.(collapsed := b)
    else
      var j := p[0];
      var u := SetCollapsed(t.children[j], p[1..], b);
      FlattenReplace(t.children, j, u);
      t.(children := t.children[j := u])
  }

  /** The frame of `node.collapsed = b`: every node of the tree keeps its place, identity, text
      and number of children, and only the node at p has its flag changed. */
  lemma {:induction false} SetCollapsedFrame(t: MindMapNode, p: seq<nat>, b: bool, q: seq<nat>)
    requires IsPath(t, p) && IsPath(t, q)
    ensures IsPath(SetCollapsed(t, p, b), q)
    ensures var m, n := NodeAt(SetCollapsed(t, p, b), q), NodeAt(t, q);
      && m.id == n.id && m.text == n.text && |m.children| == |n.children|
      && m.collapsed == (if q == p then b else n.collapsed)
    decreases q
  {
    if q != [] && p != [] {
      var k := q[0];
      if k == p[0] {
        SetCollapsedFrame(t.children[k], p[1..], b, q[1..]);
        assert q == p <==> q[1..] == p[1..];
      }
    }
  }

  lemma {:induction false} FlattenReplace(ts: seq<MindMapNode>, j: nat, u: MindMapNode)
    requires j < |ts| && Preorder(u) == Preorder(ts[j])
    ensures Flatten(ts[j := u]) == Flatten(ts)
    decreases |ts|
  {
    var last := |ts| - 1;
    if j < last {
      assert ts[j := u][..last] == ts[..last][j := u];
      FlattenReplace(ts[..last], j, u);
    } else {
      assert ts[j := u][..last] == ts[..last];
    }
  }

  /** The handler on a node's circle and label (`toggleNode`): flip `collapsed`,
      but only on a node that has children. */
  function ToggleAt(t: MindMapNode, p: seq<nat>): MindMapNode
    requires IsPath(t, p)
  {
    var n := NodeAt(t, p);
    if |n.children| > 0 then SetCollapsed(t, p, !n.collapsed) else t
  }

  /** The handler on the fold indicator: `collapsed = false`. */
  function ExpandAt(t: MindMapNode, p: seq<nat>): MindMapNode
    requires IsPath(t, p)
  {
    SetCollapsed(t, p, false)
  }

  /** Setting a node's flag to the value it already has changes nothing. */
  lemma {:induction false} SetCollapsedSame(t: MindMapNode, p: seq<nat>)
    requires IsPath(t, p)
    ensures SetCollapsed(t, p, NodeAt(t, p).collapsed) == t
    decreases p
  {
    if p != [] {
      SetCollapsedSame(t.children[p[0]], p[1..]);
      assert t.children[p[0] := t.children[p[0]]] == t.children;
    }
  }

  /** Setting the flag twice keeps only the second value. */
  lemma {:induction false} SetCollapsedTwice(t: MindMapNode, p: seq<nat>, a: bool, b: bool)
    requires IsPath(t, p)
    ensures SetCollapsed(SetCollapsed(t, p, a), p, b) == SetCollapsed(t, p, b)
    decreases p
  {
    if p != [] {
      SetCollapsedTwice(t.children[p[0]], p[1..], a, b);
    }
  }

  /** Toggling a leaf changes nothing; toggling a node with children flips its flag (and,
      by `SetCollapsedFrame`, no other node's); toggling it twice gives back the tree. */
  lemma ToggleProperties(t: MindMapNode, p: seq<nat>)
    requires IsPath(t, p)
    ensures |NodeAt(t, p).children| == 0 ==> ToggleAt(t, p) == t
    ensures |NodeAt(t, p).children| > 0 ==>
      NodeAt(ToggleAt(t, p), p) == NodeAt(t, p).(collapsed := !NodeAt(t, p).collapsed)
    ensures IsPath(ToggleAt(t, p), p) && ToggleAt(ToggleAt(t, p), p) == t
  {
    var n := NodeAt(t, p);
    if |n.children| > 0 {
      SetCollapsedTwice(t, p, !n.collapsed, n.collapsed);
      SetCollapsedSame(t, p);
    }
  }

  /** The indicator always leaves its node expanded, and leaves the rest of the tree alone. */
  lemma ExpandAtProperties(t: MindMapNode, p: seq<nat>)
    requires IsPath(t, p)
    ensures NodeAt(ExpandAt(t, p), p) == NodeAt(t, p).(collapsed := false)
    ensures !NodeAt(t, p).collapsed ==> ExpandAt(t, p) == t
    ensures ExpandAt(ExpandAt(t, p), p) == ExpandAt(t, p)
  {
    if !NodeAt(t, p).collapsed { SetCollapsedSame(t, p); }
    SetCollapsedTwice(t, p, false, false);
  }

  lemma VisibleFlattenOne(x: MindMapNode)
    ensures VisibleFlatten([x]) == VisiblePreorder(x)
  {
    assert [x][..0] == [];
  }

  /** The drawn nodes of a sequence of subtrees, split around the j-th. */
  lemma {:induction false} VisibleFlattenAt(ts: seq<MindMapNode>, j: nat)
    requires j < |ts|
    ensures VisibleFlatten(ts) == VisibleFlatten(ts[..j]) + VisiblePreorder(ts[j]) + VisibleFlatten(ts[j + 1..])
  {
    var front, x, back := ts[..j], ts[j], ts[j + 1..];
    assert ts == front + ([x] + back);
    VisibleFlattenConcat(front, [x] + back);
    VisibleFlattenConcat([x], back);
    VisibleFlattenOne(x);
  }

  /** One level of `FoldHidesDescendants`: replacing child j, drawn as m between b and a, by
      u, drawn as k between the same b and a, changes the drawing of t only there. */
  lemma FoldStep(t: MindMapNode, j: nat, u: MindMapNode, m: seq<Label>, k: seq<Label>, b: seq<Label>, a: seq<Label>)
    requires !t.collapsed && j < |t.children|
    requires VisiblePreorder(t.children[j]) == b + m + a && VisiblePreorder(u) == b + k + a
    ensures var h := [(t.id, t.text)] + VisibleFlatten(t.children[..j]) + b;
      var g := a + VisibleFlatten(t.children[j + 1..]);
      VisiblePreorder(t) == h + m + g && VisiblePreorder(t.(children := t.children[j := u])) == h + k + g
  {
    var ts := t.children;
    var head, front, back := [(t.id, t.text)], VisibleFlatten(ts[..j]), VisibleFlatten(ts[j + 1..]);
    VisibleFlattenAt(ts, j);
    VisibleFlattenAt(ts[j := u], j);
    assert ts[j := u][..j] == ts[..j] && ts[j := u][j + 1..] == ts[j + 1..];
    assert VisiblePreorder(t) == head + (front + (b + m + a) + back);
    assert VisiblePreorder(t.(children := ts[j := u])) == head + (front + (b + k + a) + back);
    ConcatAssoc(head, front + (b + m + a), back);
    ConcatAssoc(head, front, b + m + a);
    ConcatAssoc(head + front, b + m, a);
    ConcatAssoc(head + front, b, m);
    ConcatAssoc(head + front + b + m, a, back);
    ConcatAssoc(head, front + (b + k + a), back);
    ConcatAssoc(head, front, b + k + a);
    ConcatAssoc(head + front, b + k, a);
    ConcatAssoc(head + front, b, k);
    ConcatAssoc(head + front + b + k, a, back);
  }

  /** What a drawing shows before the node at path p: each node above it, and before each the
      drawn subtrees of its earlier children. */
  function DrawnBefore(t: MindMapNode, p: seq<nat>): seq<Label>
    requires IsPath(t, p)
    decreases p
  {
    if p == [] then []
    else [(t.id, t.text)] + VisibleFlatten(t.children[..p[0]]) + DrawnBefore(t.children[p[0]], p[1..])
  }

  /** What a drawing shows after the subtree of the node at path p: the drawn subtrees of the
      later children of each node above it, innermost first. */
  function DrawnAfter(t: MindMapNode, p: seq<nat>): seq<Label>
    requires IsPath(t, p)
    decreases p
  {
    if p == [] then []
    else DrawnAfter(t.children[p[0]], p[1..]) + VisibleFlatten(t.children[p[0] + 1..])
  }

  /** Collapsing a drawn, expanded node hides exactly its drawn descendants: what is drawn
      before and after the node stays, and of the node's own drawn subtree only the node is
      left. */
  lemma {:induction false} FoldHidesDescendants(t: MindMapNode, p: seq<nat>)
    requires IsVisiblePath(t, p) && IsPath(t, p) && IsExpanded(NodeAt(t, p))
    ensures VisiblePreorder(t) == DrawnBefore(t, p) + VisiblePreorder(NodeAt(t, p)) + DrawnAfter(t, p)
    ensures VisiblePreorder(SetCollapsed(t, p, true))
         == DrawnBefore(t, p) + [(NodeAt(t, p).id, NodeAt(t, p).text)] + DrawnAfter(t, p)
    ensures |VisiblePreorder(SetCollapsed(t, p, true))|
         == |VisiblePreorder(t)| - (|VisiblePreorder(NodeAt(t, p))| - 1)
    decreases p
  {
    var n := NodeAt(t, p);
    var lab := (n.id, n.text);
    if p != [] {
      var j := p[0];
      var c := t.children[j];
      var u := SetCollapsed(c, p[1..], true);
      assert SetCollapsed(t, p, true) == t.(children := t.children[j := u]);
      FoldHidesDescendants(c, p[1..]);
      FoldStep(t, j, u, VisiblePreorder(n), [lab], DrawnBefore(c, p[1..]), DrawnAfter(c, p[1..]));
    }
    assert |VisiblePreorder(n)| >= 1;
  }
}
