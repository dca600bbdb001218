/** Tab collection (src/services/TabCollectionService.ts): reads every
    workspace leaf into an `OpenTabInfo`, and focuses a leaf by its id. */
module TabCollection {
  import opened Wrappers
  import opened Seqs
  import opened Interfaces
  import opened Host

  /** `view?.file?.path || ''`. */
  function FilePathOf(leaf: Leaf): string {
    if leaf.view.Some? && leaf.view.value.file.Some? then leaf.view.value.file.value else ""
  }

  /** The leaf has a view whose `getViewType()` throws: the only failure that
      reaches the outer `catch` of `extractTabInfo`. */
  predicate ViewTypeThrows(leaf: Leaf) {
    leaf.view.Some? && leaf.view.value.viewType.Threw?
  }

  /** `extractTabInfo`: the tab record of one leaf, with the defaults "Unnamed
      Tab" (display text throws), "" (no file), "unknown" (no view or an empty
      type) and "file-text" (icon empty or throwing); absent when the view type
      cannot be read. */
  function ExtractTabInfo(leaf: Leaf, activeLeaf: Option<Leaf>): (info: Option<OpenTabInfo>)
    ensures info.None? <==> ViewTypeThrows(leaf)
    ensures info.Some? ==> info.value.leafId == leaf.id && info.value.filePath == FilePathOf(leaf)
    ensures info.Some? ==>
              info.value.displayName == (if leaf.displayText.Returned? then leaf.displayText.value else "Unnamed Tab")
    ensures info.Some? ==>
              info.value.viewType ==
                (if leaf.view.Some? && leaf.view.value.viewType.value != "" then leaf.view.value.viewType.value else "unknown")
    ensures info.Some? ==>
              info.value.icon == Some(if leaf.icon.Returned? && leaf.icon.value != "" then leaf.icon.value else "file-text")
    ensures info.Some? ==> (info.value.isActive <==> activeLeaf.Some? && activeLeaf.value.handle == leaf.handle)
  {
    if ViewTypeThrows(leaf) then None
    else
      var displayName := match leaf.displayText
        case Returned(text) => text
        case Threw => "Unnamed Tab";
      var viewType := if leaf.view.Some? && leaf.view.value.viewType.value != ""
                      then leaf.view.value.viewType.value else "unknown";
      var icon := match leaf.icon
        case Returned(name) => if name != "" then name else "file-text"
        case Threw => "file-text";
      Some(OpenTabInfo(displayName, FilePathOf(leaf), leaf.id, viewType,
                       activeLeaf.Some? && activeLeaf.value.handle == leaf.handle, Some(icon)))
  }

  /** The defaults leave no tab without a view type or an icon. */
  lemma ExtractedTypeAndIconNonEmpty(leaf: Leaf, activeLeaf: Option<Leaf>)
    requires ExtractTabInfo(leaf, activeLeaf).Some?
    ensures var info := ExtractTabInfo(leaf, activeLeaf).value;
      info.viewType != "" && info.icon.Some? && info.icon.value != ""
  {
  }

  /** What one leaf adds to the tabs when the ids in `seen` were already
      visited: its record, unless its id was visited or the record could not
      be read. */
  function LeafTabs(leaf: Leaf, seen: set<string>, activeLeaf: Option<Leaf>): (tabs: seq<OpenTabInfo>)
    ensures tabs != [] <==> leaf.id !in seen && !ViewTypeThrows(leaf)
    ensures tabs != [] ==> tabs == [ExtractTabInfo(leaf, activeLeaf).value]
  {
    if leaf.id in seen then []
    else match ExtractTabInfo(leaf, activeLeaf)
      case None => []
      case Some(tab) => [tab]
  }

  /** The tabs `getAllOpenTabs` collects from `leaves` when the ids in `seen`
      were already visited: every leaf's id is marked visited once the leaf
      has been looked at, whether or not its record could be read. */
  function CollectFrom(leaves: seq<Leaf>, seen: set<string>, activeLeaf: Option<Leaf>): seq<OpenTabInfo>
    decreases |leaves|
  {
    if leaves == [] then []
    else LeafTabs(leaves[0], seen, activeLeaf) + CollectFrom(leaves[1..], seen + {leaves[0].id}, activeLeaf)
  }

  /** One step of `getAllOpenTabs`: collecting from leaf `i` on is the leaf's
      own contribution followed by what the later leaves add. */
  lemma CollectStep(leaves: seq<Leaf>, i: nat, seen: set<string>, activeLeaf: Option<Leaf>)
    requires i < |leaves|
    ensures var rest := CollectFrom(leaves[i + 1..], seen + {leaves[i].id}, activeLeaf);
      && (leaves[i].id in seen ==>
            seen + {leaves[i].id} == seen && CollectFrom(leaves[i..], seen, activeLeaf) == rest)
      && (leaves[i].id !in seen && ViewTypeThrows(leaves[i]) ==> CollectFrom(leaves[i..], seen, activeLeaf) == rest)
      && (leaves[i].id !in seen && !ViewTypeThrows(leaves[i]) ==>
            CollectFrom(leaves[i..], seen, activeLeaf) == [ExtractTabInfo(leaves[i], activeLeaf).value] + rest)
  {
    assert leaves[i..][1..] == leaves[i + 1..];
  }

  /** Every tab of the workspace, in leaf order. */
  function OpenTabs(leaves: seq<Leaf>, activeLeaf: Option<Leaf>): (tabs: seq<OpenTabInfo>)
    ensures forall i, j :: 0 <= i < j < |tabs| ==> tabs[i].leafId != tabs[j].leafId
  {
    CollectedIdsFresh(leaves, {}, activeLeaf);
    CollectFrom(leaves, {}, activeLeaf)
  }

  /** No tab has an id in `seen`, and no two tabs share an id. */
  predicate IdsFreshAndDistinct(tabs: seq<OpenTabInfo>, seen: set<string>) {
    && (forall i :: 0 <= i < |tabs| ==> tabs[i].leafId !in seen)
    && (forall i, j :: 0 <= i < j < |tabs| ==> tabs[i].leafId != tabs[j].leafId)
  }

  /** No collected tab has a visited id, and no two collected tabs share one. */
  lemma {:induction false} CollectedIdsFresh(leaves: seq<Leaf>, seen: set<string>, activeLeaf: Option<Leaf>)
    ensures IdsFreshAndDistinct(CollectFrom(leaves, seen, activeLeaf), seen)
    decreases |leaves|
  {
    if leaves != [] {
      var id := leaves[0].id;
      var head := LeafTabs(leaves[0], seen, activeLeaf);
      var rest := CollectFrom(leaves[1..], seen + {id}, activeLeaf);
      CollectedIdsFresh(leaves[1..], seen + {id}, activeLeaf);
      var tabs := head + rest;
      assert forall i :: 0 <= i < |head| ==> tabs[i].leafId == id && id !in seen;
      assert forall i :: |head| <= i < |tabs| ==> tabs[i] == rest[i - |head|];
    }
  }

  /** The ids of a run of leaves. */
  function IdsOf(leaves: seq<Leaf>): (ids: set<string>)
    ensures forall k :: 0 <= k < |leaves| ==> leaves[k].id in ids
  {
    if leaves == [] then {} else {leaves[0].id} + IdsOf(leaves[1..])
  }

  /** Collection follows leaf order: the tabs of an earlier run of leaves come
      before those of a later run, and the later run sees the earlier ids as
      visited. */
  lemma {:induction false} CollectAppend(a: seq<Leaf>, b: seq<Leaf>, seen: set<string>, activeLeaf: Option<Leaf>)
    ensures CollectFrom(a + b, seen, activeLeaf) ==
            CollectFrom(a, seen, activeLeaf) + CollectFrom(b, seen + IdsOf(a), activeLeaf)
    decreases |a|
  {
    if a == [] {
      assert a + b == b;
      assert IdsOf(a) == {};
      assert seen + IdsOf(a) == seen;
    } else {
      var seen' := seen + {a[0].id};
      var head := LeafTabs(a[0], seen, activeLeaf);
      assert (a + b)[0] == a[0];
      assert (a + b)[1..] == a[1..] + b;
      assert CollectFrom(a + b, seen, activeLeaf) == head + CollectFrom(a[1..] + b, seen', activeLeaf);
      CollectAppend(a[1..], b, seen', activeLeaf);
      assert seen' + IdsOf(a[1..]) == seen + IdsOf(a);
      Regroup(head, CollectFrom(a[1..], seen', activeLeaf), CollectFrom(b, seen + IdsOf(a), activeLeaf));
    }
  }

  /** Leaf `k` is the first leaf with its id. */
  predicate FirstWithId(leaves: seq<Leaf>, k: nat)
    requires k < |leaves|
  {
    forall j :: 0 <= j < k ==> leaves[j].id != leaves[k].id
  }

  /** Leaf `k` is a leaf whose record is `tab`, that is the first with its id,
      and whose id was not visited before. */
  predicate CollectedAt(leaves: seq<Leaf>, seen: set<string>, activeLeaf: Option<Leaf>, tab: OpenTabInfo, k: nat)
    requires k < |leaves|
  {
    leaves[k].id !in seen && FirstWithId(leaves, k) && ExtractTabInfo(leaves[k], activeLeaf) == Some(tab)
  }

  /** Every collected tab is the record of a leaf that is the first with its
      id, whose id was not visited before. */
  lemma {:induction false} CollectedOnlyFirst(leaves: seq<Leaf>, seen: set<string>, activeLeaf: Option<Leaf>, tab: OpenTabInfo)
    requires tab in CollectFrom(leaves, seen, activeLeaf)
    ensures exists k :: 0 <= k < |leaves| && CollectedAt(leaves, seen, activeLeaf, tab, k)
    decreases |leaves|
  {
    var rest := leaves[1..];
    var seen' := seen + {leaves[0].id};
    if tab in LeafTabs(leaves[0], seen, activeLeaf) {
      assert CollectedAt(leaves, seen, activeLeaf, tab, 0);
    } else {
      assert tab in CollectFrom(rest, seen', activeLeaf);
      CollectedOnlyFirst(rest, seen', activeLeaf, tab);
      var k' :| 0 <= k' < |rest| && CollectedAt(rest, seen', activeLeaf, tab, k');
      assert leaves[k' + 1] == rest[k'];
      assert CollectedAt(leaves, seen, activeLeaf, tab, k' + 1);
    }
  }

  /** The record of every leaf that is the first with its id, whose id was not
      visited before, is collected. */
  lemma {:induction false} CollectedAllFirst(leaves: seq<Leaf>, seen: set<string>, activeLeaf: Option<Leaf>, tab: OpenTabInfo, k: nat)
    requires k < |leaves| && CollectedAt(leaves, seen, activeLeaf, tab, k)
    ensures tab in CollectFrom(leaves, seen, activeLeaf)
    decreases k
  {
    var rest := leaves[1..];
    var seen' := seen + {leaves[0].id};
    if k == 0 {
      assert LeafTabs(leaves[0], seen, activeLeaf) == [tab];
    } else {
      assert rest[k - 1] == leaves[k];
      assert CollectedAt(rest, seen', activeLeaf, tab, k - 1);
      CollectedAllFirst(rest, seen', activeLeaf, tab, k - 1);
    }
  }

  /** A tab is collected exactly when it is the record of a leaf that is the
      first with its id, whose id was not visited before, and whose record
      could be read. */
  lemma CollectedIff(leaves: seq<Leaf>, seen: set<string>, activeLeaf: Option<Leaf>, tab: OpenTabInfo)
    ensures tab in CollectFrom(leaves, seen, activeLeaf) <==>
      exists k :: 0 <= k < |leaves| && CollectedAt(leaves, seen, activeLeaf, tab, k)
  {
    if tab in CollectFrom(leaves, seen, activeLeaf) {
      CollectedOnlyFirst(leaves, seen, activeLeaf, tab);
    }
    if exists k :: 0 <= k < |leaves| && CollectedAt(leaves, seen, activeLeaf, tab, k) {
      var k :| 0 <= k < |leaves| && CollectedAt(leaves, seen, activeLeaf, tab, k);
      CollectedAllFirst(leaves, seen, activeLeaf, tab, k);
    }
  }

  /** The position of the last leaf in `leaves` with the given id, or -1. */
  function LastIndexWithId(leaves: seq<Leaf>, id: string): (k: int)
    ensures -1 <= k < |leaves|
    ensures k >= 0 ==> leaves[k].id == id && forall j :: k < j < |leaves| ==> leaves[j].id != id
    ensures k == -1 ==> forall j :: 0 <= j < |leaves| ==> leaves[j].id != id
    decreases |leaves|
  {
    if leaves == [] then -1
    else if leaves[|leaves| - 1].id == id then |leaves| - 1
    else LastIndexWithId(leaves[..|leaves| - 1], id)
  }

  /** The last leaf in `leaves` with the given id, if any. */
  function LastWithId(leaves: seq<Leaf>, id: string): (found: Option<Leaf>)
    ensures found.Some? <==> exists k :: 0 <= k < |leaves| && leaves[k].id == id
  {
    var k := LastIndexWithId(leaves, id);
    if k == -1 then None else Some(leaves[k])
  }

  class TabCollectionService {
    const workspace: Workspace

    constructor (workspace: Workspace)
      ensures this.workspace == workspace
    {
      this.workspace := workspace;
    }

    /** `getAllOpenTabs`: one record per leaf id, in leaf order. */
    method GetAllOpenTabs() returns (tabs: seq<OpenTabInfo>)
      ensures tabs == OpenTabs(workspace.leaves, workspace.activeLeaf)
      ensures IdsFreshAndDistinct(tabs, {})
    {
      var leaves := workspace.leaves;
      var activeLeaf := workspace.activeLeaf;
      tabs := [];
      var seenLeafIds: set<string> := {};
      for i := 0 to |leaves|
        invariant tabs + CollectFrom(leaves[i..], seenLeafIds, activeLeaf) == OpenTabs(leaves, activeLeaf)
      {
        CollectStep(leaves, i, seenLeafIds, activeLeaf);
        ghost var rest := CollectFrom(leaves[i + 1..], seenLeafIds + {leaves[i].id}, activeLeaf);
        if leaves[i].id !in seenLeafIds {
          seenLeafIds := seenLeafIds + {leaves[i].id};
          var tabInfo := ExtractTabInfo(leaves[i], activeLeaf);
          if tabInfo.Some? {
            Regroup(tabs, [tabInfo.value], rest);
            tabs := tabs + [tabInfo.value];
          }
        }
      }
      assert leaves[|leaves|..] == [];
      CollectedIdsFresh(leaves, {}, activeLeaf);
    }

    /** `focusTab`: makes every leaf with the id active in turn, so the last one
        stays active; reports whether there was one. */
    method FocusTab(leafId: string) returns (found: bool)
      modifies workspace
      ensures workspace.leaves == old(workspace.leaves)
      ensures found <==> exists k :: 0 <= k < |workspace.leaves| && workspace.leaves[k].id == leafId
      ensures workspace.activeLeaf == if found then LastWithId(workspace.leaves, leafId) else old(workspace.activeLeaf)
    {
      found := false;
      var leaves := workspace.leaves;
      for i := 0 to |leaves|
        invariant workspace.leaves == leaves
        invariant found <==> exists k :: 0 <= k < i && leaves[k].id == leafId
        invariant found ==> workspace.activeLeaf == LastWithId(leaves[..i], leafId)
        invariant !found ==> workspace.activeLeaf == old(workspace.activeLeaf)
      {
        assert leaves[..i + 1][..i] == leaves[..i];
        if leaves[i].id == leafId {
          workspace.activeLeaf := Some(leaves[i]);
          found := true;
        }
      }
      assert leaves[..|leaves|] == leaves;
    }

    /** `getActiveTab`: the record of the active leaf, if there is one; a tab
        it returns is always marked active. */
    function GetActiveTab(): (tab: Option<OpenTabInfo>)
      reads workspace
      ensures tab.None? <==> workspace.activeLeaf.None? || ViewTypeThrows(workspace.activeLeaf.value)
      ensures tab.Some? ==> tab.value.isActive && tab.value.leafId == workspace.activeLeaf.value.id
    {
      if workspace.activeLeaf.None? then None
      else ExtractTabInfo(workspace.activeLeaf.value, workspace.activeLeaf)
    }
  }
}
