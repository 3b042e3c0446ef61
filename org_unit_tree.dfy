/**
 * The organisational-unit tree widget. Its controller keeps the list of
 * expanded nodes; selecting a node that has children toggles it in that list
 * (appended when no node with its id is there, otherwise the first node with
 * its id is removed), and every selection is passed on to the bound
 * `onSelection` callback when one is bound.
 */
module OrgUnitTree {
  import opened Wrappers

  /** A node of the org-unit tree with its (optional) application counts. */
  datatype Node = Node(
    id: int,
    children: Option<seq<Node>>,
    appCount: Option<int>,
    totalAppCount: Option<int>,
    childAppCount: Option<int>,
    endUserAppCount: Option<int>,
    totalEndUserAppCount: Option<int>,
    childEndUserAppCount: Option<int>)

  /** A node is expandable when its `children` list is present and not empty. */
  predicate HasChildren(node: Node)
  {
    node.children.Some? && |node.children.value| > 0
  }

  /**
   * The tree's node equality: both nodes present and their ids equal. It is an
   * equivalence on present nodes and false whenever a node is missing.
   */
  predicate Equality(a: Option<Node>, b: Option<Node>)
  {
    a.Some? && b.Some? && a.value.id == b.value.id
  }

  /**
   * The tree's equality is false when a node is missing, and an equivalence on
   * present nodes that agrees with the id test `onNodeSelect` searches with.
   */
  lemma EqualityIsEquivalence(a: Option<Node>, b: Option<Node>, c: Option<Node>)
    ensures Equality(a, b) ==> a.Some? && b.Some?
    ensures a.Some? ==> Equality(a, a)
    ensures Equality(a, b) ==> Equality(b, a)
    ensures Equality(a, b) && Equality(b, c) ==> Equality(a, c)
    ensures a.Some? && b.Some? ==> (Equality(a, b) <==> a.value.id == b.value.id)
  {
  }

  /**
   * `count && count > 0` in the source: a missing or zero count is falsy and
   * short-circuits, anything else is compared with zero.
   */
  function CountPositive(count: Option<int>): (b: bool)
    ensures b <==> exists n :: count == Some(n) && n > 0
  {
    var truthy := count.Some? && count.value != 0;
    truthy && count.value > 0
  }

  predicate HasOwnApps(node: Node) { CountPositive(node.appCount) }
  predicate HasAnyApps(node: Node) { CountPositive(node.totalAppCount) }
  predicate HasInheritedApps(node: Node) { CountPositive(node.childAppCount) }
  predicate HasOwnEndUserApps(node: Node) { CountPositive(node.endUserAppCount) }
  predicate HasAnyEndUserApps(node: Node) { CountPositive(node.totalEndUserAppCount) }
  predicate HasInheritedEndUserApps(node: Node) { CountPositive(node.childEndUserAppCount) }

  /** Every `has…Apps` guard holds exactly when its count is present and positive. */
  lemma AppGuards(node: Node)
    ensures HasOwnApps(node) <==> node.appCount.Some? && node.appCount.value > 0
    ensures HasAnyApps(node) <==> node.totalAppCount.Some? && node.totalAppCount.value > 0
    ensures HasInheritedApps(node) <==> node.childAppCount.Some? && node.childAppCount.value > 0
    ensures HasOwnEndUserApps(node) <==> node.endUserAppCount.Some? && node.endUserAppCount.value > 0
    ensures HasAnyEndUserApps(node) <==> node.totalEndUserAppCount.Some? && node.totalEndUserAppCount.value > 0
    ensures HasInheritedEndUserApps(node) <==> node.childEndUserAppCount.Some? && node.childEndUserAppCount.value > 0
  {
  }

  /** True iff some node in `nodes` has the id. */
  predicate ContainsId(nodes: seq<Node>, id: int)
  {
    exists k :: 0 <= k < |nodes| && nodes[k].id == id
  }

  /** The position of the first node with the id, or -1 when there is none. */
  function FirstIndexOf(nodes: seq<Node>, id: int): (k: int)
    ensures -1 <= k < |nodes|
    ensures k == -1 <==> !ContainsId(nodes, id)
    ensures k >= 0 ==> nodes[k].id == id && forall j :: 0 <= j < k ==> nodes[j].id != id
  {
    if nodes == [] then -1
    else if nodes[0].id == id then 0
    else
      var rest := FirstIndexOf(nodes[1..], id);
      assert forall j :: 1 <= j < |nodes| ==> nodes[j] == nodes[1..][j - 1];
      if rest == -1 then -1 else rest + 1
  }

  /** The list without its element at position `k`. */
  function RemoveAt(nodes: seq<Node>, k: nat): seq<Node>
    requires k < |nodes|
  {
    nodes[..k] + nodes[k + 1..]
  }

  /** What selecting `node` does to the list of expanded nodes. */
  function Toggled(expanded: seq<Node>, node: Node): seq<Node>
  {
    if !HasChildren(node) then expanded
    else
      var k := FirstIndexOf(expanded, node.id);
      if k == -1 then expanded + [node] else RemoveAt(expanded, k)
  }

  /** No two nodes in the list share an id. */
  predicate DistinctIds(nodes: seq<Node>)
  {
    forall i, j :: 0 <= i < j < |nodes| ==> nodes[i].id != nodes[j].id
  }

  /** `_.findIndex(nodes, n => n.id === id)`: a left-to-right search for the first match. */
  method FindIndex(nodes: seq<Node>, id: int) returns (idx: int)
    ensures idx == FirstIndexOf(nodes, id)
  {
    idx := 0;
    while idx < |nodes|
      invariant 0 <= idx <= |nodes|
      invariant forall j :: 0 <= j < idx ==> nodes[j].id != id
    {
      if nodes[idx].id == id {
        return;
      }
      idx := idx + 1;
    }
    idx := -1;
  }

  /** Selecting a node without children leaves the list as it was. */
  lemma ToggleLeafUnchanged(expanded: seq<Node>, node: Node)
    requires !HasChildren(node)
    ensures Toggled(expanded, node) == expanded
  {
  }

  /** Selecting an expandable node whose id is absent appends it and keeps everything before it. */
  lemma ToggleAbsentAppends(expanded: seq<Node>, node: Node)
    requires HasChildren(node) && !ContainsId(expanded, node.id)
    ensures |Toggled(expanded, node)| == |expanded| + 1
    ensures Toggled(expanded, node)[..|expanded|] == expanded
    ensures Toggled(expanded, node)[|expanded|] == node
  {
  }

  /**
   * Selecting an expandable node whose id is present removes exactly the first
   * node with that id; the nodes before it stay in place and those after it
   * move up by one, in the same order.
   */
  lemma TogglePresentRemovesFirst(expanded: seq<Node>, node: Node)
    requires HasChildren(node) && ContainsId(expanded, node.id)
    ensures var k := FirstIndexOf(expanded, node.id);
      && 0 <= k < |expanded| && expanded[k].id == node.id
      && (forall j :: 0 <= j < k ==> expanded[j].id != node.id)
      && |Toggled(expanded, node)| == |expanded| - 1
      && (forall j :: 0 <= j < k ==> Toggled(expanded, node)[j] == expanded[j])
      && (forall j :: k <= j < |expanded| - 1 ==> Toggled(expanded, node)[j] == expanded[j + 1])
  {
  }

  /** Toggling never gives two expanded nodes the same id when none shared one before. */
  lemma ToggleKeepsDistinct(expanded: seq<Node>, node: Node)
    requires DistinctIds(expanded)
    ensures DistinctIds(Toggled(expanded, node))
  {
    var t := Toggled(expanded, node);
    if HasChildren(node) {
      var k := FirstIndexOf(expanded, node.id);
      if k == -1 {
        forall i, j | 0 <= i < j < |t| ensures t[i].id != t[j].id {
          if j == |expanded| {
            assert t[i] == expanded[i];
          }
        }
      } else {
        forall i, j | 0 <= i < j < |t| ensures t[i].id != t[j].id {
          var i' := if i < k then i else i + 1;
          var j' := if j < k then j else j + 1;
          assert t[i] == expanded[i'] && t[j] == expanded[j'];
        }
      }
    }
  }

  /** Selecting the same expandable node twice, starting with its id absent, restores the list. */
  lemma ToggleTwiceRestores(expanded: seq<Node>, node: Node)
    requires HasChildren(node) && !ContainsId(expanded, node.id)
    ensures Toggled(Toggled(expanded, node), node) == expanded
  {
    var once := expanded + [node];
    assert Toggled(expanded, node) == once;
    assert once[|expanded|].id == node.id;
    assert ContainsId(once, node.id);
    var k := FirstIndexOf(once, node.id);
    assert forall j :: 0 <= j < |expanded| ==> once[j] == expanded[j];
    assert k == |expanded|;
    assert RemoveAt(once, k) == expanded;
  }

  /** The controller of the tree widget. */
  class OrgUnitTreeController {
    /** The nodes currently shown expanded, in the order they were expanded. */
    var expandedNodes: seq<Node>
    /** Whether `onSelection`, a two-way binding the parent may change at any time, is a function. */
    var onSelectionBound: bool
    /** The nodes passed to `onSelection`, oldest first. */
    ghost var notified: seq<Node>

    /** A fresh controller expands nothing. */
    constructor (onSelectionBound: bool)
      ensures expandedNodes == [] && notified == []
      ensures this.onSelectionBound == onSelectionBound
    {
      expandedNodes := [];
      this.onSelectionBound := onSelectionBound;
      notified := [];
    }

    /** The parent binds or rebinds `onSelection`; the expanded list and past notifications stay. */
    method BindOnSelection(isFunction: bool)
      modifies this`onSelectionBound
      ensures onSelectionBound == isFunction
      ensures expandedNodes == old(expandedNodes) && notified == old(notified)
    {
      onSelectionBound := isFunction;
    }

    /**
     * Toggles an expandable node in `expandedNodes`, then notifies `onSelection`
     * if it is a function at the time of the call.
     */
    method OnNodeSelect(node: Node)
      modifies this`expandedNodes, this`notified
      ensures expandedNodes == Toggled(old(expandedNodes), node)
      ensures notified == if onSelectionBound then old(notified) + [node] else old(notified)
    {
      if HasChildren(node) {
        var idx := FindIndex(expandedNodes, node.id);
        if idx == -1 {
          expandedNodes := expandedNodes + [node];
        } else {
          expandedNodes := expandedNodes[..idx] + expandedNodes[idx + 1..];
        }
      }
      if onSelectionBound {
        notified := notified + [node];
      }
    }
  }
}
