/** The snapshot exporter (src/services/CanvasGenerationService.ts): one card per
    open tab, laid out on a grid, saved as a new canvas file under a free name. */
module CanvasGeneration {
  import opened Wrappers
  import opened Text
  import opened Interfaces
  import opened Host

  /** The name the plugin saves under when none is given. */
  const DefaultCanvasName: string := "Open Tabs Canvas"

  /** `Math.max(1, Math.ceil(Math.sqrt(n)))` read over the integers: the least
      c >= 1 with c * c >= n. */
  function Columns(n: nat): (c: nat)
    ensures 1 <= c && n <= c * c
    ensures c == 1 || (c - 1) * (c - 1) < n
  {
    ColumnsFrom(n, 1)
  }

  /** Searches upwards from `c` for the least column count. */
  function ColumnsFrom(n: nat, c: nat): (r: nat)
    requires 1 <= c
    requires c == 1 || (c - 1) * (c - 1) < n
    ensures c <= r && n <= r * r
    ensures r == c || (r - 1) * (r - 1) < n
    decreases n - c
  {
    if n <= c * c then c
    else
      assert c <= c * c;
      ColumnsFrom(n, c + 1)
  }

  /** Multiplying by a non-negative factor keeps order. */
  lemma MulMonotone(a: int, b: int, k: int)
    requires 0 <= k && a <= b
    ensures a * k <= b * k
  {
  }

  /** Multiplying by a positive factor keeps strict order, and so cancels. */
  lemma MulStrict(a: int, b: int, k: int)
    requires 0 < k
    ensures a < b <==> a * k < b * k
    ensures a * k == b * k ==> a == b
  {
    if a < b {
      assert a * k < b * k;
    } else {
      MulMonotone(b, a, k);
    }
  }

  /** No smaller column count holds all n cards: `Columns` is the ceiling of
      the square root. */
  lemma ColumnsIsLeast(n: nat, d: nat)
    requires 1 <= d < Columns(n)
    ensures d * d < n
  {
    var c := Columns(n);
    MulMonotone(d, c - 1, d);
    MulMonotone(d, c - 1, c - 1);
  }

  /** Where card `i` of `n` goes (`calculateGridLayout`). Without auto-layout the
      cards form one column; with it they fill `Columns(n)` columns row by row. */
  function GridPosition(config: CanvasConfig, n: nat, i: nat): (p: Position)
    ensures i == 0 ==> p == Position(0, 0)
    ensures !config.autoLayout ==> p.x == 0
    ensures config.autoLayout && i < Columns(n) ==> p.y == 0
  {
    if !config.autoLayout then
      Position(0, i * (config.cardHeight + config.gridSpacing))
    else
      var cols := Columns(n);
      var col, row := i % cols, i / cols;
      FirstRow(i, cols);
      Position(col * (config.cardWidth + config.gridSpacing),
               row * (config.cardHeight + config.gridSpacing))
  }

  /** An index below the column count is in the top row, at its own column. */
  lemma FirstRow(i: nat, cols: nat)
    requires 0 < cols
    ensures i < cols ==> i / cols == 0 && i % cols == i
  {
  }

  /** In the auto-layout grid, card `i` sits in column `i % cols` and row
      `i / cols`, these recover `i`, and there are no more rows than columns. */
  lemma GridCell(n: nat, i: nat)
    requires i < n
    ensures var cols := Columns(n);
      && i % cols < cols
      && i / cols < cols
      && i == (i / cols) * cols + i % cols
  {
    var cols := Columns(n);
    var q, r := i / cols, i % cols;
    assert q * cols + r == i && 0 <= r < cols;
    assert q * cols < cols * cols;
    MulStrict(q, cols, cols);
  }

  /** When a card plus its spacing takes up room in both directions, two cards
      of a layout share a position only if they are the same card, in either
      layout. */
  lemma GridPositionInjective(config: CanvasConfig, n: nat, i: nat, j: nat)
    requires i < n && j < n
    requires config.cardWidth + config.gridSpacing > 0
    requires config.cardHeight + config.gridSpacing > 0
    ensures GridPosition(config, n, i) == GridPosition(config, n, j) ==> i == j
  {
    var w := config.cardWidth + config.gridSpacing;
    var h := config.cardHeight + config.gridSpacing;
    if !config.autoLayout {
      MulStrict(i, j, h);
    } else {
      var cols := Columns(n);
      GridCell(n, i);
      GridCell(n, j);
      MulStrict(i % cols, j % cols, w);
      MulStrict(i / cols, j / cols, h);
    }
  }

  /** A tab becomes a file card exactly when it has a path and shows a note or a
      canvas. */
  predicate IsFileTab(tab: OpenTabInfo) {
    tab.filePath != "" && (tab.viewType == "markdown" || tab.viewType == "canvas")
  }

  /** `createCardNode`: the card for one tab, at the given position. */
  function CreateCardNode(config: CanvasConfig, tab: OpenTabInfo, nodeId: string, position: Position): (node: CanvasNode)
    ensures node.id == nodeId && node.x == position.x && node.y == position.y
    ensures node.width == config.cardWidth && node.height == config.cardHeight
    ensures node.content.FileNode? <==> IsFileTab(tab)
    ensures node.content.FileNode? ==> node.content.file == tab.filePath
    ensures node.content.TextNode? ==> node.content.text == tab.displayName + "\n(" + tab.viewType + ")"
    ensures node.color == Some("1") <==> tab.isActive
    ensures node.color.None? <==> !tab.isActive
    ensures node.leafId == tab.leafId
  {
    var content := if IsFileTab(tab) then FileNode(tab.filePath)
                   else TextNode(tab.displayName + "\n(" + tab.viewType + ")");
    CanvasNode(nodeId, content, position.x, position.y, config.cardWidth, config.cardHeight,
               if tab.isActive then Some("1") else None, tab.leafId)
  }

  /** The id of the card made for tab number `i`. */
  function NodeId(i: nat): string {
    "tab-node-" + NatToString(i)
  }

  /** Different tabs get different card ids. */
  lemma NodeIdInjective(i: nat, j: nat)
    ensures NodeId(i) == NodeId(j) ==> i == j
  {
    if NodeId(i) == NodeId(j) {
      assert NatToString(i) == NodeId(i)[9..] == NodeId(j)[9..] == NatToString(j);
      NatToStringInjective(i, j);
    }
  }

  /** The canvas the exporter builds from a list of tabs: card `i` for tab `i`,
      at grid position `i`, and no edges. */
  function CanvasFromTabs(config: CanvasConfig, tabs: seq<OpenTabInfo>): (data: CanvasData)
    ensures |data.nodes| == |tabs| && data.edges == []
    ensures forall i :: 0 <= i < |tabs| ==>
              && data.nodes[i].id == NodeId(i)
              && data.nodes[i].leafId == tabs[i].leafId
              && data.nodes[i].x == GridPosition(config, |tabs|, i).x
              && data.nodes[i].y == GridPosition(config, |tabs|, i).y
  {
    CanvasData(
      seq(|tabs|, i requires 0 <= i < |tabs| =>
        CreateCardNode(config, tabs[i], NodeId(i), GridPosition(config, |tabs|, i))),
      [])
  }

  /** The exported canvas has one card per tab in tab order, each carrying its
      tab's leaf id; card ids are unique, and with room between cards no two
      cards overlap in position. */
  lemma CanvasFromTabsCards(config: CanvasConfig, tabs: seq<OpenTabInfo>)
    ensures var data := CanvasFromTabs(config, tabs);
      && |data.nodes| == |tabs| && data.edges == []
      && (forall i :: 0 <= i < |tabs| ==> data.nodes[i].leafId == tabs[i].leafId)
      && (forall i, j :: 0 <= i < j < |tabs| ==> data.nodes[i].id != data.nodes[j].id)
      && (config.cardWidth + config.gridSpacing > 0 && config.cardHeight + config.gridSpacing > 0 ==>
            forall i, j :: 0 <= i < j < |tabs| ==>
              (data.nodes[i].x, data.nodes[i].y) != (data.nodes[j].x, data.nodes[j].y))
  {
    var data := CanvasFromTabs(config, tabs);
    forall i, j | 0 <= i < j < |tabs| ensures data.nodes[i].id != data.nodes[j].id {
      NodeIdInjective(i, j);
    }
    if config.cardWidth + config.gridSpacing > 0 && config.cardHeight + config.gridSpacing > 0 {
      forall i, j | 0 <= i < j < |tabs|
        ensures (data.nodes[i].x, data.nodes[i].y) != (data.nodes[j].x, data.nodes[j].y)
      {
        GridPositionInjective(config, |tabs|, i, j);
      }
    }
  }

  /** The path tried after `counter` collisions: "<name>.canvas" first, then
      "<name> 1.canvas", "<name> 2.canvas", ... (`normalizePath` leaves these
      unchanged for the default name). */
  function CandidatePath(canvasName: string, counter: nat): string {
    if counter == 0 then canvasName + ".canvas"
    else canvasName + " " + NatToString(counter) + ".canvas"
  }

  /** Every candidate starts with the canvas name and ends in ".canvas"; only
      the first has nothing in between. */
  lemma CandidatePathShape(canvasName: string, counter: nat)
    ensures var path := CandidatePath(canvasName, counter);
      && |canvasName| + 7 <= |path|
      && path[..|canvasName|] == canvasName
      && path[|path| - 7..] == ".canvas"
      && (counter == 0 <==> |path| == |canvasName| + 7)
  {
    var path := CandidatePath(canvasName, counter);
    if counter != 0 {
      var digits := NatToString(counter);
      assert path == canvasName + (" " + digits + ".canvas");
    }
  }

  /** Different counters give different paths, so the search always moves on. */
  lemma CandidatePathInjective(canvasName: string, a: nat, b: nat)
    requires CandidatePath(canvasName, a) == CandidatePath(canvasName, b)
    ensures a == b
  {
    var n := |canvasName|;
    if a != 0 && b != 0 {
      var pa, pb := CandidatePath(canvasName, a), CandidatePath(canvasName, b);
      var da, db := NatToString(a), NatToString(b);
      assert pa == canvasName + " " + da + ".canvas";
      assert pb == canvasName + " " + db + ".canvas";
      assert |da| == |db|;
      assert da == pa[n + 1..n + 1 + |da|];
      assert db == pb[n + 1..n + 1 + |db|];
      NatToStringInjective(a, b);
    }
  }

  class CanvasGenerationService {
    /** The canvas built by the last `GenerateCanvasFromTabs`. */
    var canvas: CanvasData
    /** The settings object shared with the plugin. */
    const settings: ConfigObject
    const vault: Vault

    constructor (vault: Vault, settings: ConfigObject)
      ensures this.vault == vault && this.settings == settings
      ensures canvas == CanvasData([], [])
    {
      this.vault := vault;
      this.settings := settings;
      canvas := CanvasData([], []);
    }

    /** `calculateGridLayout`: the positions of `nodeCount` cards under the
        current settings. */
    method CalculateGridLayout(nodeCount: nat) returns (positions: seq<Position>)
      ensures |positions| == nodeCount
      ensures forall i :: 0 <= i < nodeCount ==> positions[i] == GridPosition(settings.config, nodeCount, i)
    {
      var config := settings.config;
      positions := [];
      if !config.autoLayout || nodeCount == 0 {
        for i := 0 to nodeCount
          invariant |positions| == i
          invariant forall k :: 0 <= k < i ==> positions[k] == GridPosition(config, nodeCount, k)
        {
          positions := positions + [Position(0, i * (config.cardHeight + config.gridSpacing))];
        }
        return;
      }
      var cols := Columns(nodeCount);
      var totalWidth := config.cardWidth + config.gridSpacing;
      var totalHeight := config.cardHeight + config.gridSpacing;
      for i := 0 to nodeCount
        invariant |positions| == i
        invariant forall k :: 0 <= k < i ==> positions[k] == GridPosition(config, nodeCount, k)
      {
        var col := i % cols;
        var row := i / cols;
        positions := positions + [Position(col * totalWidth, row * totalHeight)];
      }
    }

    /** `generateCanvasFromTabs`: throws the previous canvas away and builds a
        new one with one card per tab. */
    method GenerateCanvasFromTabs(tabs: seq<OpenTabInfo>) returns (data: CanvasData)
      modifies this
      ensures data == canvas == CanvasFromTabs(settings.config, tabs)
    {
      canvas := CanvasData([], []);
      if |tabs| == 0 {
        return canvas;
      }
      var positions := CalculateGridLayout(|tabs|);
      ghost var target := CanvasFromTabs(settings.config, tabs);
      for index := 0 to |tabs|
        invariant canvas.edges == []
        invariant canvas.nodes == target.nodes[..index]
      {
        var node := CreateCardNode(settings.config, tabs[index], NodeId(index), positions[index]);
        canvas := canvas.(nodes := canvas.nodes + [node]);
      }
      assert canvas.nodes == target.nodes;
      return canvas;
    }

    /** The collision-free path search of `saveCanvasToFile`: the first
        candidate path that is not already taken. */
    method ChooseCanvasPath(existing: set<string>, canvasName: string) returns (path: string)
      ensures path !in existing
      ensures exists k: nat :: path == CandidatePath(canvasName, k) &&
                  forall j: nat :: j < k ==> CandidatePath(canvasName, j) in existing
    {
      path := CandidatePath(canvasName, 0);
      var counter := 1;
      ghost var tried: set<string> := {};
      while path in existing
        invariant 1 <= counter
        invariant path == CandidatePath(canvasName, counter - 1)
        invariant forall j: nat :: j < counter - 1 ==> CandidatePath(canvasName, j) in existing
        invariant tried <= existing
        invariant forall p :: p in tried ==> exists j: nat :: j < counter - 1 && p == CandidatePath(canvasName, j)
        invariant path !in tried
        decreases existing - tried
      {
        tried := tried + {path};
        path := CandidatePath(canvasName, counter);
        counter := counter + 1;
        forall p | p in tried ensures p != path {
          var j: nat :| j < counter - 1 && p == CandidatePath(canvasName, j);
          if p == path {
            CandidatePathInjective(canvasName, j, counter - 1);
          }
        }
      }
    }

    /** `saveCanvasToFile`: writes the current canvas to a new file under the
        first free candidate path. `createFails` says whether `vault.create`
        throws; then the plugin reports failure and returns no file. */
    method SaveCanvasToFile(canvasName: string, createFails: bool) returns (file: Option<string>)
      modifies vault
      ensures file.None? <==> createFails
      ensures file.None? ==> vault.files == old(vault.files)
      ensures file.Some? ==> file.value !in old(vault.files)
      ensures file.Some? ==> vault.files == old(vault.files)[file.value := CanvasFile(canvas)]
      ensures file.Some? ==>
                exists k: nat :: file.value == CandidatePath(canvasName, k) &&
                  forall j: nat :: j < k ==> CandidatePath(canvasName, j) in old(vault.files)
    {
      var path := ChooseCanvasPath(vault.files.Keys, canvasName);
      if createFails {
        return None;
      }
      vault.files := vault.files[path := CanvasFile(canvas)];
      file := Some(path);
    }
  }
}
