# Mind-map renderer core, modelled in Dafny

This project models the core of `MindMapRenderer` in `src/main.ts`, an early version of a plugin
that draws an indented Markdown list as a mind map, and proves properties of that model. It
covers four parts:

- **The list parser** (`parseMarkdownList`). It splits the text into lines and drops the blank
  ones. For each remaining line it computes:
  - an indentation level, half the count of leading whitespace characters, rounded down;
  - a node text, the trimmed line with one `-` or `*` marker and the whitespace after it
    removed.

  A stack of (node, level) pairs, seeded with a synthetic root at level -1, gives every line its
  parent. If the synthetic root ends up with one child, that child is returned instead.
- **The size estimates** `calculateTextWidth`, `calculateTreeHeight` and `calculateTreeWidth`.
- **The placement rule of `renderNode`**, without the SVG calls. It covers the node's circle,
  its label anchor and its fold indicator. Children go in a column 50 to the right of the
  label, stacked with a running `currentY`. Each child gets a Bezier connector whose control
  points sit midway across.
- **The click handlers**: `toggleNode` and the fold indicator's handler, with `render` and
  `refresh`.

Modules:

- `Text`: JavaScript's `trim`, `search(/\S|$/)`, `split('\n')` and the blank-line filter.
- `Tree`: the `MindMapNode` value, its traversals, and the fold updates at a path.
- `Parser`: the reference definition of the parse, and the stack loop proved equal to it.
  The nodes the source builds in place are kept in an arena of slots:
  - slot 0 is the synthetic root;
  - slot k+1 is the k-th non-blank line;
  - one children array is kept per slot.
- `ParseOrder`: what the parsed tree says about the document.
- `Sizing`: the three size functions, and the two loops proved equal to them.
- `Layout`: the drawing of a tree as a sequence of glyphs and connectors. The recursive
  `renderNode` loop is proved equal to it.
- `Renderer`: the `MindMapRenderer` class, with the source text, the parsed tree and what the
  container shows.
- `Scenario`: the worked example `- A` / `  - B` / `  - C`.

Node identities are `RootId` for the synthetic root, whose id in the source is the fixed
`'root'`. Every other node gets `LineId(k)`, where k is the index of its line among the
non-blank lines. The source draws these ids from `Math.random`.

Facts about this version of the code that the model follows:

- A tab counts as one character of indentation, exactly like a space, so two tabs make one
  level.
- There is no heading mode and no title override. Every non-blank line becomes a node, a
  heading line such as `# Title` included. Its text is the trimmed line with one leading `-`
  or `*` and the whitespace after it removed.
- Collapsing a node does not always make it shorter. A node whose only child is a leaf is 40
  tall either way. `Sizing.CollapseHeight` states exactly when the height drops.
- A fold toggle parses the source again before drawing, which loses the fold (see
  "Findings").

## Model

| member | source | states |
|---|---|---|
| Text.LeadingWhitespace | src/main.ts:58 | the result k is the index of the first non-whitespace character, or the length: all of `s[..k]` is whitespace and `s[k]` is not |
| Text.TrailingWhitespace | src/main.ts:54 | the count of whitespace characters at the end: all of them are whitespace and the one before them is not |
| Text.Trim | src/main.ts:54 | `trim` leaves neither leading nor trailing whitespace, and is empty exactly when the line is all whitespace |
| Text.TrimOfPadded | src/main.ts:62 | trimming whitespace, then a text without whitespace at its ends, then whitespace, gives that text |
| Text.TrimBare | src/main.ts:62 | trimming a text that has no whitespace at its ends changes nothing |
| Text.Split | src/main.ts:41 | `split('\n')` yields at least one piece and no piece holds a line feed |
| Text.JoinSplit | src/main.ts:41 | joining the pieces of a split with line feeds gives the text back |
| Text.SplitJoin | src/main.ts:41 | splitting pieces that were joined with line feeds gives the pieces back |
| Text.NonBlank | src/main.ts:41 | the filter keeps exactly the lines that are not all whitespace, and no line it keeps is blank |
| Text.NonBlankConcat | src/main.ts:41 | the filter works line by line: filtering two runs of lines gives the two filtered runs in the same order, so order and repeated lines are kept |
| Text.NonBlankOne | src/main.ts:41 | a single line is kept exactly when it is not all whitespace |
| Text.NothingLeftIffAllWhitespace | src/main.ts:41-42 | no line survives the filter exactly when the whole text is whitespace |
| Tree.SetCollapsed | src/main.ts:143 | assigning `collapsed` at a path gives that node the new flag, keeps the preorder, and keeps the root's id, text and child count |
| Tree.SetCollapsedFrame | src/main.ts:143 | the assignment changes nothing else: every node keeps its place, id, text and child count, and every node other than the target keeps its flag |
| Tree.SetCollapsedSame | src/main.ts:204 | setting a node's flag to the value it already has leaves the tree unchanged |
| Tree.SetCollapsedTwice | src/main.ts:143 | setting the flag twice keeps only the second value |
| Tree.ToggleAt | src/main.ts:141-143 | the node handler's update: a leaf is left alone, a node with children has its flag flipped and no other node changes; stated by `Tree.ToggleProperties` and `Tree.SetCollapsedFrame` |
| Tree.ExpandAt | src/main.ts:203-211 | the indicator handler's update: the node ends expanded and no other node changes; stated by `Tree.ExpandAtProperties` and `Tree.SetCollapsedFrame` |
| Tree.ToggleProperties | src/main.ts:141-146 | toggling a leaf changes nothing; toggling a node with children flips its flag; toggling twice gives the tree back |
| Tree.ExpandAtProperties | src/main.ts:203-211 | the indicator leaves its node expanded, changes nothing on an expanded node, and is idempotent |
| Tree.AllExpandedShowsAll | src/main.ts:152 | when no node is collapsed, the nodes drawn are all the nodes, in preorder |
| Tree.VisiblePreorder | src/main.ts:152 | the nodes a drawing shows, in preorder, without entering a collapsed node; stated by `Tree.AllExpandedShowsAll`, `Tree.FoldHidesDescendants` and `Layout.LayoutShowsVisible` |
| Tree.FoldHidesDescendants | src/main.ts:152 | the nodes drawn are those before the node (`DrawnBefore`), its drawn subtree, then those after it (`DrawnAfter`); collapsing it keeps both sides and leaves only the node of its subtree, so exactly its drawn descendants disappear |
| Parser.IndentLevel | src/main.ts:58-59 | the level k of a line with w leading whitespace characters satisfies `2k <= w < 2k + 2`, so it is w / 2 rounded down; `ParseOrder.ItemLevel` and `ParseOrder.PlainLevel` give it for item lines and other lines |
| Parser.StripMarker | src/main.ts:62 | removes one leading `-` or `*` and the whitespace after it; stated by `ParseOrder.StripOfMarked` |
| Parser.NodeText | src/main.ts:54-62 | a node's text is the trimmed line with one marker and the whitespace after it removed; stated by `ParseOrder.ItemText` for item lines and `ParseOrder.PlainText` for other lines |
| Parser.NearestBelow | src/main.ts:72-74 | the search returns a slot shallower than the new line, and every slot skipped is at least as deep |
| Parser.ParentOf | src/main.ts:72-77 | a line's parent is the nearest earlier slot with a strictly smaller level |
| Parser.ParentUnique | src/main.ts:72-77 | that parent is unique |
| Parser.ParentIsRoot | src/main.ts:72-77 | a line hangs from the synthetic root exactly when no earlier line is less indented |
| Parser.ChildrenIn | src/main.ts:76-77 | every child listed for a slot comes after that slot and lies in the range scanned |
| Parser.ChildrenInComplete | src/main.ts:76-77 | the children of a slot miss no line whose parent it is, and are in document order |
| Parser.ChildrenInSplit | src/main.ts:53-79 | the children found in two adjacent ranges of lines are those of the first range followed by those of the second |
| Parser.ChildrenInNone | src/main.ts:76-77 | a range without lines whose parent is p gives p no children |
| Parser.SpecKids | src/main.ts:53-79 | the reference arena has one children array per slot, each listing only later slots |
| Parser.PopStep | src/main.ts:72-74 | popping an entry at least as deep as the new line keeps the stack's shape: root at the bottom, slots and levels strictly increasing |
| Parser.PushStep | src/main.ts:78 | pushing the new line on top of its parent keeps the stack's shape |
| Parser.KidsStep | src/main.ts:76-77 | appending the new line to its parent's children keeps each children array equal to the lines so far whose parent that slot is |
| Parser.PopDeeper | src/main.ts:72-74 | the inner loop never pops the synthetic root, keeps the stack's shape, and leaves on top the new line's parent, shallower than the line |
| Parser.AttachStep | src/main.ts:76-78 | one attach-and-push step carries the loop invariant from i lines to i + 1 |
| Parser.AddLine | src/main.ts:54-78 | one iteration of the loop carries the loop invariant from i lines to i + 1 |
| Parser.BuildArena | src/main.ts:51-79 | after the loop the texts are the node texts of the lines and every children array equals the reference one |
| Parser.ParseMarkdownList | src/main.ts:40-87 | the method returns `None` for no lines, otherwise the reference tree, unwrapping a single child of the synthetic root |
| Parser.TreeOf | src/main.ts:44-86 | the synthetic root with every line under its nearest shallower earlier line, or the root's only child; stated by `ParseOrder.TreeOfInOrder` and `ParseOrder.RootKids` |
| Parser.Parse | src/main.ts:40-42 | `null` when no non-blank line is left, otherwise the tree of the lines' texts and levels; stated by `ParseOrder.ParseNoneIffBlank` and `ParseOrder.ParseListsLinesInOrder`, and computed by `Parser.ParseMarkdownList` |
| ParseOrder.End | src/main.ts:72-77 | the first later slot not deeper than s; every slot in between is deeper |
| ParseOrder.RootSpansAll | src/main.ts:51 | every line is nested under the synthetic root at level -1 |
| ParseOrder.ChainStep | src/main.ts:72-77 | after child a of s come the lines nested under a, then the next child of s |
| ParseOrder.Group | src/main.ts:53-79 | the subtrees of s's children, flattened, list the lines nested under s in document order |
| ParseOrder.Subtree | src/main.ts:53-79 | the preorder of a slot's node lists that slot and then every line nested under it, in document order |
| ParseOrder.FirstSpansAll | src/main.ts:82-84 | the first line spans the whole list exactly when every later line is deeper |
| ParseOrder.RootKids | src/main.ts:82-86 | the first line is the synthetic root's first child, and its only child exactly when it spans the list |
| ParseOrder.TreeOfInOrder | src/main.ts:44-86 | read in preorder, the tree lists each line once in document order, after `('root', 'Root')` unless the first line is the only top-level one |
| ParseOrder.ParseListsLinesInOrder | src/main.ts:40-87 | every non-blank line gives exactly one node, and the preorder lists them in document order |
| ParseOrder.ParseNoneIffBlank | src/main.ts:41-42 | the parse gives `null` exactly when the text is all whitespace |
| ParseOrder.NodeAtSlotExpanded | src/main.ts:64-69 | no node built from the arena is collapsed |
| ParseOrder.ParseAllExpanded | src/main.ts:44-69 | every node the parse creates, root included, starts expanded |
| ParseOrder.ItemText | src/main.ts:54-62 | a line made of indentation, a `-` or `*`, whitespace, text x and trailing whitespace gives node text x |
| ParseOrder.ItemLevel | src/main.ts:58-59 | such a line's level is half its indentation, rounded down |
| ParseOrder.PlainText | src/main.ts:54-62 | a line without a marker gives its trimmed text |
| ParseOrder.PlainLevel | src/main.ts:58-59 | the level of a line is half its leading whitespace, rounded down |
| ParseOrder.StripOfMarked | src/main.ts:62 | after trimming, the marker and the whitespace after it are removed |
| Sizing.TextWidth | src/main.ts:217-220 | a label is at least 20 wide |
| Sizing.TreeHeight | src/main.ts:222-233 | every subtree is at least 40 tall |
| Sizing.StackedHeight | src/main.ts:228-230 | the running total grows by at least 60 per child |
| Sizing.StackedIsSumPlusGaps | src/main.ts:228-232 | the running total is the sum of the children's heights plus 20 per child |
| Sizing.HeightOfExpanded | src/main.ts:222-233 | an expanded node is as tall as its children's heights together plus 20 per gap between two of them |
| Sizing.HeightCoversChild | src/main.ts:222-233 | an expanded node is at least as tall as each child, plus 60 for each sibling |
| Sizing.CollapseHeight | src/main.ts:222-225 | collapsing brings the height to 40, never up; it drops exactly when the node has two children or more, or one child taller than 40 |
| Sizing.TreeWidth | src/main.ts:235-247 | a subtree is at least as wide as its label plus 30 |
| Sizing.WidthFrom | src/main.ts:240-246 | the running maximum is at least its start and each child's width plus 100, and equals one of them |
| Sizing.WidthIsWidestExtent | src/main.ts:235-247 | the width is the reach of the farthest-reaching drawn node: a label's width plus 30, plus 100 per level below the top |
| Sizing.CalculateTreeHeight | src/main.ts:222-233 | the loop computes `TreeHeight` |
| Sizing.CalculateTreeWidth | src/main.ts:235-247 | the loop computes `TreeWidth` |
| Layout.GlyphOf | src/main.ts:119-138 | a node's circle at (x, y), its label at (x + 15, y + 5), its depth, and the fold indicator of lines 183-201, its circle at (x + 16, y) and its `+` at (x + 12, y + 4), exactly for a collapsed node with children; stated by `Layout.FoldedDrawsOnlyGlyph`, `Layout.ExpandedHasNoIndicator` and `Renderer.FoldKeptHidesDescendants` |
| Layout.ChildX | src/main.ts:153 | the children's column is 50 right of the end of the label; stated by `Layout.ChildConnector` |
| Layout.BandTop | src/main.ts:155-181 | `currentY` before child i: the top of the parent's height, plus each earlier child's height and 20; stated by `Layout.SiblingBands` and `Layout.BandsApart` |
| Layout.ChildY | src/main.ts:159-160 | child i sits in the middle of its band; stated by `Layout.SiblingBands` and `Layout.ChildConnector` |
| Layout.EdgeTo | src/main.ts:163-172 | the curve to child i, from 6 right of the parent's centre to 6 left of the child's, with both control points midway; stated by `Layout.ChildConnector` and `Layout.LayoutWellLinked` |
| Layout.KidsLayout | src/main.ts:158-182 | for each child in turn, its curve and its drawing; stated by `Layout.ChildConnector` and computed by `Layout.RenderChildren` |
| Layout.Drawing | src/main.ts:107-215 | the drawing of a node starts with its own glyph |
| Layout.SiblingBands | src/main.ts:152-181 | the first band starts at y - H/2; each band starts 20 below the end of the previous one; each child is in the middle of its band; the last band ends at y + H/2 |
| Layout.LastBandEnd | src/main.ts:152-181 | the last band ends exactly at y + H/2, so the children are centred on the parent |
| Layout.BandsApart | src/main.ts:181 | a later band starts at least 20 below the end of any earlier one, so bands do not overlap |
| Layout.BandInside | src/main.ts:152-181 | every band lies within the parent's height |
| Layout.LayoutWithin | src/main.ts:107-215 | every glyph drawn for a node at (x, y) is at or right of x and at least 20 inside its height |
| Layout.SiblingsApart | src/main.ts:152-181 | every glyph of a later child's subtree is at least 60 below every glyph of an earlier child's subtree |
| Layout.LayoutShowsVisible | src/main.ts:107-215 | the drawing shows the nodes that are not below a collapsed node, in preorder, with one connector fewer than nodes |
| Layout.LayoutWellLinked | src/main.ts:162-172 | every connector in a drawing runs rightwards with both control points midway across, and ends 6 left of the centre of the glyph that follows it |
| Layout.ChildConnector | src/main.ts:158-179 | for every child of an expanded node at (x, y), the drawing holds the curve from (x + 6, y) to 6 left of the child's centre, with both control points midway, followed at once by the child's whole drawing |
| Layout.FoldedDrawsOnlyGlyph | src/main.ts:152-211 | a collapsed node or a leaf draws only its glyph; the glyph has the fold indicator exactly when the node has children and is collapsed |
| Layout.ExpandedHasNoIndicator | src/main.ts:182-185 | a tree without collapsed nodes draws no fold indicator |
| Layout.RenderNode | src/main.ts:107-215 | the recursive method produces the drawing `Drawing` describes |
| Layout.RenderChildren | src/main.ts:152-181 | the `currentY` loop produces the connectors and drawings of all the children in order |
| Renderer.Present | src/main.ts:91-103 | the "No content to render" message when there is no tree, otherwise the tree drawn at (50, 300) with depth 0; stated by `Renderer.MindMapRenderer.Render` |
| Renderer.MindMapRenderer.constructor | src/main.ts:30-34 | the renderer keeps the source, with no tree and an empty container |
| Renderer.MindMapRenderer.Render | src/main.ts:89-105 | on an empty container, `render` stores the fresh parse of the source and shows the message or its drawing |
| Renderer.MindMapRenderer.Refresh | src/main.ts:266-269 | `refresh` ends in the same state as `render` |
| Renderer.MindMapRenderer.ToggleNode | src/main.ts:141-146 | on a leaf nothing changes; otherwise the handler ends with the fresh parse of the source and its drawing |
| Renderer.MindMapRenderer.ClickIndicator | src/main.ts:203-211 | the indicator handler ends with the fresh parse of the source and its drawing |
| Renderer.MindMapRenderer.Redraw | src/main.ts:103 | a redraw of the held tree keeps that tree and shows its drawing |
| Renderer.MindMapRenderer.ToggleNodeKeepingFold | src/main.ts:141-146 | the corrected toggle keeps the tree with the flipped flag and shows its drawing |
| Renderer.MindMapRenderer.ClickIndicatorKeepingFold | src/main.ts:203-211 | the corrected indicator handler keeps the tree with the node expanded and shows its drawing |
| Renderer.IndicatorNeverDrawn | src/main.ts:182-211 | a drawing made right after a parse never shows a fold indicator |
| Renderer.RefreshForgetsFold | src/main.ts:141-146 | the toggle does set the flag, yet after its `refresh` the node is expanded again and no indicator is drawn |
| Renderer.VisibleNodeDrawn | src/main.ts:107-181 | every node on a drawn path has its glyph in the drawing |
| Renderer.FoldKeptHidesDescendants | src/main.ts:141-146 | with the fold kept, collapsing a drawn node keeps the nodes drawn before and after it, removes exactly its drawn descendants, gives the node the collapsed flag, and draws the node's own glyph with its indicator: the circle 16 to the right of its centre and the `+` 12 to the right and 4 below |
| Renderer.IndicatorUndoesFold | src/main.ts:203-211 | with the fold kept, a click on the indicator of a node just folded gives back the earlier drawing |
| Scenario.ExampleParse | src/main.ts:40-87 | `- A`, then `- B` and `- C` indented under it, parse to A with children B and C, all expanded |
| Scenario.ExampleFold | src/main.ts:141-146 | clicking A in that example: as written all three nodes stay drawn with no indicator; with the fold kept only A is drawn, with its indicator |

## Left out

- The plugin lifecycle is not modelled: `onload`, code-block registration and `onunload`, at src/main.ts:10-23 and 36-38. They are host-framework glue. The model's constructor keeps only the source.
- SVG element creation, attribute strings, colours, fonts and event-listener wiring are not modelled; they are DOM side effects. A drawing is a sequence of glyphs and connectors, carrying the coordinates those calls consume. The font size and weight that depend on depth 0 are kept only as the glyph's depth.
- `centerTree` (src/main.ts:249-264) is not modelled. It reads the rendered bounding box and the container size from the DOM and scales in floating point.
- The container's `innerHTML` is not modelled as HTML. The model's view is `Blank` after a reset, `NoContent` for the "No content to render" message, or a `Diagram`.
- Random ids (src/main.ts:65) are replaced by `LineId(k)`, which are distinct within one parse, as the random ids are meant to be.
- Floating point: every coordinate of `renderNode` is an exact real, and every size an unbounded integer. The source uses JavaScript doubles. The sizes are small integers and the coordinates use only halving, so the results agree unless a value is large enough to lose precision.
- Sizing.TextWidth: counts Unicode characters. JavaScript's `length` counts UTF-16 code units, so a character outside the Basic Multilingual Plane counts 1 here and 2 in the source.
- The `if (!trimmed) continue;` at src/main.ts:55 has no counterpart. The blank-line filter at line 41 already removed every line it would skip, so the branch is never taken.
- The `{ x, y }` that `renderNode` returns (src/main.ts:214) is never used by its callers, so `RenderNode` returns only the drawing.
- `calculateTreeWidth` is modelled although nothing in the file calls it.
- Updates in place are modelled as a new value. A handler assigning `node.collapsed` on a node object of `this.root` becomes `SetCollapsed` at that node's path. Nodes are never shared, so no other part of the tree observes the change.
- Renderer.MindMapRenderer.Render: requires an empty container. The source's `render` (src/main.ts:96) adds a new `<svg>` without clearing what is there, and a container holding two drawings is not modelled. Every caller passes an empty container: `onload` uses a fresh one, and `refresh` clears it first (src/main.ts:267).
- Renderer.MindMapRenderer.ToggleNode: the handler requires only a path into the held tree. The source can only call it on a drawn node, so this precondition is weaker than what the source guarantees.
- Heading mode, notes, other layout strategies, zoom, pan and a fold-state map are not modelled; this version of the code has none of them.

## Findings

| source | as written | input that shows it | evidently intended | confidence | as-written member | corrected member |
|---|---|---|---|---|---|---|
| src/main.ts:141-146 | `toggleNode` sets `node.collapsed` and calls `refresh`. Its `render` replaces `this.root` with a fresh parse of the source, in which every node is expanded, so the new flag is thrown away and the same drawing comes back | the list `- A` / `  - B` / `  - C`, then a click on A (`Scenario.ExampleFold`) | redraw the tree that holds the new flag, so that A's children disappear and its fold indicator appears (`Renderer.FoldKeptHidesDescendants`) | not executed | Renderer.RefreshForgetsFold | Renderer.MindMapRenderer.ToggleNodeKeepingFold |
| src/main.ts:182-211 | the fold indicator and its click handlers are drawn only for a collapsed node. Every drawing follows a fresh parse, in which nothing is collapsed, so the indicator never appears and its handler cannot run | any list with a nested item, for example the one above | the indicator shows on a folded node, and a click on it restores the drawing from before the fold (`Renderer.IndicatorUndoesFold`) | not executed | Renderer.IndicatorNeverDrawn | Renderer.MindMapRenderer.ClickIndicatorKeepingFold |
