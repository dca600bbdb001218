/** Double-click handling on an exported canvas
    (src/services/CanvasInteractionService.ts): find the card that was hit by
    walking up from the clicked element, and focus the tab that card stands
    for. */
module CanvasInteraction {
  import opened Wrappers
  import opened Text
  import opened Host
  import opened TabCollection

  /** What the walk reads of one element: its `id`, its `className`, whether it
      has a `data-node-id` attribute, the length of its `textContent`, and its
      `offsetWidth`/`offsetHeight`. */
  datatype Element = Element(
    id: string,
    className: string,
    hasNodeIdAttribute: bool,
    textLength: nat,
    offsetWidth: int,
    offsetHeight: int)

  /** The walk inspects at most this many elements. */
  const MaxDepth: nat := 10

  /** The class name or the attribute marks the element as a card. */
  predicate LooksLikeNode(e: Element) {
    Contains(e.className, "canvas-node") || Contains(e.className, "node") || e.hasNodeIdAttribute
  }

  /** The element has text and is small enough to be a card's label. */
  predicate LooksLikeLabel(e: Element) {
    e.textLength > 0 && e.offsetWidth < 300 && e.offsetHeight < 200
  }

  /** The walk stops at this element. */
  predicate IsNodeCandidate(e: Element) {
    LooksLikeNode(e) || LooksLikeLabel(e)
  }

  /** A class name with "canvas-node" also contains "node", so the first test
      of the walk adds nothing to the second. */
  lemma LooksLikeNodeSimplified(e: Element)
    ensures LooksLikeNode(e) <==> Contains(e.className, "node") || e.hasNodeIdAttribute
  {
    if Contains(e.className, "canvas-node") {
      ContainsSuffix(e.className, "canvas-node", 7);
      assert "canvas-node"[7..] == "node";
    }
  }

  /** The depth at which the walk from `path[depth]` upwards stops, if it stops
      inside the window of `MaxDepth` elements. */
  function FirstCandidateFrom(path: seq<Element>, depth: nat): (found: Option<nat>)
    requires depth <= MaxDepth
    ensures found.Some? ==>
              && depth <= found.value < |path| && found.value < MaxDepth
              && IsNodeCandidate(path[found.value])
              && forall d :: depth <= d < found.value ==> !IsNodeCandidate(path[d])
    ensures found.None? ==> forall d :: depth <= d < |path| && d < MaxDepth ==> !IsNodeCandidate(path[d])
    decreases MaxDepth - depth
  {
    if depth >= |path| || depth == MaxDepth then None
    else if IsNodeCandidate(path[depth]) then Some(depth)
    else FirstCandidateFrom(path, depth + 1)
  }

  /** `findCanvasNodeElement`: `path` is the clicked element followed by its
      ancestors, nearest first, up to where the parent chain ends. The result
      is the depth of the first element, among the first `MaxDepth`, that
      looks like a card or like a card's label. */
  method FindCanvasNodeElement(path: seq<Element>) returns (found: Option<nat>)
    ensures found == FirstCandidateFrom(path, 0)
    ensures found.Some? ==>
              && found.value < |path| && found.value < MaxDepth
              && IsNodeCandidate(path[found.value])
              && forall d :: 0 <= d < found.value ==> !IsNodeCandidate(path[d])
    ensures found.None? ==> forall d :: 0 <= d < |path| && d < MaxDepth ==> !IsNodeCandidate(path[d])
  {
    var depth := 0;
    while depth < |path| && depth < MaxDepth
      invariant depth <= |path| && depth <= MaxDepth
      invariant FirstCandidateFrom(path, depth) == FirstCandidateFrom(path, 0)
    {
      var current := path[depth];
      if LooksLikeNode(current) {
        return Some(depth);
      }
      if current.textLength > 0 {
        if current.offsetWidth < 300 && current.offsetHeight < 200 {
          return Some(depth);
        }
      }
      depth := depth + 1;
    }
    return None;
  }

  /** A card of the open canvas: its id and the leaf id stored in its
      metadata, if any. */
  datatype LiveNode = LiveNode(id: string, leafId: Option<string>)

  /** `nodes.find(node => node.id === id)`. */
  function FindNode(nodes: seq<LiveNode>, id: string): (node: Option<LiveNode>)
    ensures node.Some? ==>
              exists k :: 0 <= k < |nodes| && nodes[k] == node.value && node.value.id == id &&
                forall j :: 0 <= j < k ==> nodes[j].id != id
    ensures node.None? ==> forall k :: 0 <= k < |nodes| ==> nodes[k].id != id
    decreases |nodes|
  {
    if nodes == [] then None
    else if nodes[0].id == id then Some(nodes[0])
    else
      var rest := FindNode(nodes[1..], id);
      if rest.Some? then
        assert forall k :: 1 <= k < |nodes| ==> nodes[k] == nodes[1..][k - 1];
        rest
      else rest
  }

  /** The leaf id a double-click asks to focus: there is a clicked element,
      the walk finds a card element, a canvas card has that element's id, and
      the card's leaf id is present and non-empty. */
  function DoubleClickFocusId(target: Option<seq<Element>>, nodes: seq<LiveNode>): (leafId: Option<string>)
    ensures leafId.Some? ==> leafId.value != ""
    ensures leafId.Some? ==> target.Some? && FirstCandidateFrom(target.value, 0).Some?
    ensures leafId.Some? ==>
              var clicked := FindNode(nodes, target.value[FirstCandidateFrom(target.value, 0).value].id);
              clicked.Some? && clicked.value.leafId == leafId
    ensures leafId.Some? ==>
              exists k :: 0 <= k < |nodes| && nodes[k].leafId == leafId &&
                nodes[k].id == target.value[FirstCandidateFrom(target.value, 0).value].id
    ensures target.Some? && FirstCandidateFrom(target.value, 0).Some? ==>
              var clicked := FindNode(nodes, target.value[FirstCandidateFrom(target.value, 0).value].id);
              clicked.Some? && clicked.value.leafId.Some? && clicked.value.leafId.value != "" ==>
                leafId == clicked.value.leafId
  {
    if target.None? then None
    else
      var depth := FirstCandidateFrom(target.value, 0);
      if depth.None? then None
      else
        var clicked := FindNode(nodes, target.value[depth.value].id);
        if clicked.Some? && clicked.value.leafId.Some? && clicked.value.leafId.value != "" then
          clicked.value.leafId
        else None
  }

  /** The gate of `attachCanvasEventListeners`: the leaf shows a canvas view
      with a container element. A missing view or a throwing `getViewType()`
      is caught, and nothing is attached. */
  predicate AttachesListeners(leaf: Leaf) {
    && leaf.view.Some?
    && leaf.view.value.viewType == Returned("canvas")
    && leaf.view.value.hasContainer
  }

  class CanvasInteractionService {
    const tabCollection: TabCollectionService
    /** The double-click listeners registered so far, one per registration,
        by the handle of the leaf whose canvas container received it. */
    var listeners: multiset<nat>

    constructor (tabCollection: TabCollectionService)
      ensures this.tabCollection == tabCollection
      ensures listeners == multiset{}
    {
      this.tabCollection := tabCollection;
      listeners := multiset{};
    }

    /** `attachCanvasEventListeners`: registers one more double-click listener
        on the leaf's canvas container when the gate admits the leaf. A leaf
        without a view, with a throwing or different view type, or without a
        container gets none; the error is caught and the call returns
        normally. Calling it again for the same leaf registers again. */
    method AttachCanvasEventListeners(leaf: Leaf)
      modifies this`listeners
      ensures listeners == old(listeners) + (if AttachesListeners(leaf) then multiset{leaf.handle} else multiset{})
      ensures !AttachesListeners(leaf) ==> listeners == old(listeners)
      ensures AttachesListeners(leaf) ==> listeners[leaf.handle] == old(listeners)[leaf.handle] + 1
    {
      if leaf.view.None? {
        return;
      }
      var view := leaf.view.value;
      match view.viewType
      case Threw =>
        return;
      case Returned(viewType) =>
        if viewType != "canvas" {
          return;
        }
      if !view.hasContainer {
        return;
      }
      listeners := listeners + multiset{leaf.handle};
    }

    /** `handleCanvasCardDoubleClick`: `target` is the clicked element and its
        ancestors (absent when the event has no target), `nodes` the open
        canvas's cards. Focuses the card's tab when there is one to focus;
        otherwise nothing changes. */
    method HandleCanvasCardDoubleClick(target: Option<seq<Element>>, nodes: seq<LiveNode>)
      modifies tabCollection.workspace
      ensures tabCollection.workspace.leaves == old(tabCollection.workspace.leaves)
      ensures DoubleClickFocusId(target, nodes).None? ==>
                tabCollection.workspace.activeLeaf == old(tabCollection.workspace.activeLeaf)
      ensures DoubleClickFocusId(target, nodes).Some? ==>
                var last := LastWithId(tabCollection.workspace.leaves, DoubleClickFocusId(target, nodes).value);
                tabCollection.workspace.activeLeaf == (if last.Some? then last else old(tabCollection.workspace.activeLeaf))
    {
      if target.None? {
        return;
      }
      var nodeElement := FindCanvasNodeElement(target.value);
      if nodeElement.None? {
        return;
      }
      var clickedNode := FindNode(nodes, target.value[nodeElement.value].id);
      if clickedNode.Some? {
        var leafId := clickedNode.value.leafId;
        if leafId.Some? && leafId.value != "" {
          var _ := tabCollection.FocusTab(leafId.value);
        }
      }
    }
  }
}
