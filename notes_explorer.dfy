/** The first-generation plugin (main.ts): a side view that shows one card per
    open note, highlights the active one, lets the cards be reordered by drag
    and drop, and refreshes itself through a one-slot debounce timer. */
module NotesExplorer {
  import opened Wrappers
  import opened Seqs
  import opened Host

  /** An entry of `getOpenFiles`: the path of an open note and a leaf showing it. */
  datatype OpenFile = OpenFile(path: string, leaf: Leaf)

  /** The note a leaf shows: the path of its view's file, if it has one. */
  function FileOf(leaf: Leaf): Option<string> {
    if leaf.view.Some? then leaf.view.value.file else None
  }

  /** `getLeavesOfType('markdown')` keeps a leaf whose view reports the
      markdown type. */
  predicate IsMarkdownLeaf(leaf: Leaf) {
    leaf.view.Some? && leaf.view.value.viewType == Returned("markdown")
  }

  /** The markdown leaves, in workspace order. */
  function MarkdownLeaves(leaves: seq<Leaf>): (markdown: seq<Leaf>)
    ensures |markdown| <= |leaves|
    ensures forall k :: 0 <= k < |markdown| ==> IsMarkdownLeaf(markdown[k])
    ensures |leaves| == 1 ==> markdown == if IsMarkdownLeaf(leaves[0]) then leaves else []
  {
    if leaves == [] then []
    else (if IsMarkdownLeaf(leaves[0]) then [leaves[0]] else []) + MarkdownLeaves(leaves[1..])
  }

  /** A leaf is among the markdown leaves exactly when it is a leaf of the
      workspace and shows the markdown type. */
  lemma {:induction false} MarkdownLeavesMembers(leaves: seq<Leaf>, leaf: Leaf)
    ensures leaf in MarkdownLeaves(leaves) <==> leaf in leaves && IsMarkdownLeaf(leaf)
  {
    if leaves != [] {
      MarkdownLeavesMembers(leaves[1..], leaf);
      assert leaves == [leaves[0]] + leaves[1..];
    }
  }

  /** The filter keeps the markdown leaves of each run in their order and
      number: filtering two runs is filtering each. */
  lemma {:induction false} MarkdownLeavesAppend(a: seq<Leaf>, b: seq<Leaf>)
    ensures MarkdownLeaves(a + b) == MarkdownLeaves(a) + MarkdownLeaves(b)
    decreases |a|
  {
    if a == [] {
      assert a + b == b;
    } else {
      assert (a + b)[0] == a[0];
      assert (a + b)[1..] == a[1..] + b;
      MarkdownLeavesAppend(a[1..], b);
      Regroup(if IsMarkdownLeaf(a[0]) then [a[0]] else [], MarkdownLeaves(a[1..]), MarkdownLeaves(b));
    }
  }

  /** The note paths a leaf marks as listed: its note's, if it shows one. */
  function NotesOf(leaf: Leaf): set<string> {
    if FileOf(leaf).Some? then {FileOf(leaf).value} else {}
  }

  /** What one leaf adds to the list when the paths in `seen` were already
      listed: its note and itself, unless it shows no note or a listed one. */
  function LeafEntry(leaf: Leaf, seen: set<string>): (entry: seq<OpenFile>)
    ensures entry != [] <==> FileOf(leaf).Some? && FileOf(leaf).value !in seen
    ensures entry != [] ==> entry == [OpenFile(FileOf(leaf).value, leaf)]
  {
    var file := FileOf(leaf);
    if file.Some? && file.value !in seen then [OpenFile(file.value, leaf)] else []
  }

  /** The entries `getOpenFiles` collects from `leaves` when the paths in `seen`
      were already listed. */
  function FilesFrom(leaves: seq<Leaf>, seen: set<string>): seq<OpenFile>
    decreases |leaves|
  {
    if leaves == [] then []
    else LeafEntry(leaves[0], seen) + FilesFrom(leaves[1..], seen + NotesOf(leaves[0]))
  }

  /** One step of `getOpenFiles`: listing from leaf `i` on is the leaf's own
      entry followed by what the later leaves add. */
  lemma FilesStep(leaves: seq<Leaf>, i: nat, seen: set<string>)
    requires i < |leaves|
    ensures var rest := FilesFrom(leaves[i + 1..], seen + NotesOf(leaves[i]));
      && (FileOf(leaves[i]).Some? && FileOf(leaves[i]).value !in seen ==>
            FilesFrom(leaves[i..], seen) == [OpenFile(FileOf(leaves[i]).value, leaves[i])] + rest)
      && (!(FileOf(leaves[i]).Some? && FileOf(leaves[i]).value !in seen) ==>
            seen + NotesOf(leaves[i]) == seen && FilesFrom(leaves[i..], seen) == rest)
  {
    assert leaves[i..][1..] == leaves[i + 1..];
  }

  /** Every open note of the workspace, once. */
  function OpenFiles(leaves: seq<Leaf>): (files: seq<OpenFile>)
    ensures forall i, j :: 0 <= i < j < |files| ==> files[i].path != files[j].path
  {
    ListedPathsDistinct(MarkdownLeaves(leaves), {});
    FilesFrom(MarkdownLeaves(leaves), {})
  }

  /** No entry has a path in `seen`, and no two entries share a path. */
  predicate PathsFreshAndDistinct(files: seq<OpenFile>, seen: set<string>) {
    && (forall i :: 0 <= i < |files| ==> files[i].path !in seen)
    && (forall i, j :: 0 <= i < j < |files| ==> files[i].path != files[j].path)
  }

  /** No listed path was listed before, and no path is listed twice. */
  lemma {:induction false} ListedPathsDistinct(leaves: seq<Leaf>, seen: set<string>)
    ensures PathsFreshAndDistinct(FilesFrom(leaves, seen), seen)
    decreases |leaves|
  {
    if leaves != [] {
      var head := LeafEntry(leaves[0], seen);
      var rest := FilesFrom(leaves[1..], seen + NotesOf(leaves[0]));
      ListedPathsDistinct(leaves[1..], seen + NotesOf(leaves[0]));
      var files := head + rest;
      assert forall i :: 0 <= i < |head| ==> files[i].path in NotesOf(leaves[0]) && files[i].path !in seen;
      assert forall i :: |head| <= i < |files| ==> files[i] == rest[i - |head|];
    }
  }

  /** Leaf `k` is the first leaf that shows its note. */
  predicate FirstWithFile(leaves: seq<Leaf>, k: nat)
    requires k < |leaves|
  {
    forall j :: 0 <= j < k ==> FileOf(leaves[j]) != FileOf(leaves[k])
  }

  /** Leaf `k` is the leaf of `entry`, shows its note, is the first leaf to
      show it, and the note was not listed before. */
  predicate ListedAt(leaves: seq<Leaf>, seen: set<string>, entry: OpenFile, k: nat)
    requires k < |leaves|
  {
    leaves[k] == entry.leaf && FileOf(leaves[k]) == Some(entry.path) && entry.path !in seen && FirstWithFile(leaves, k)
  }

  /** Every listed entry is a note with the first leaf that shows it. */
  lemma {:induction false} ListedOnlyFirst(leaves: seq<Leaf>, seen: set<string>, entry: OpenFile)
    requires entry in FilesFrom(leaves, seen)
    ensures exists k :: 0 <= k < |leaves| && ListedAt(leaves, seen, entry, k)
    decreases |leaves|
  {
    var rest := leaves[1..];
    var seen' := seen + NotesOf(leaves[0]);
    if entry in LeafEntry(leaves[0], seen) {
      assert ListedAt(leaves, seen, entry, 0);
    } else {
      assert entry in FilesFrom(rest, seen');
      ListedOnlyFirst(rest, seen', entry);
      var k' :| 0 <= k' < |rest| && ListedAt(rest, seen', entry, k');
      assert leaves[k' + 1] == rest[k'];
      assert ListedAt(leaves, seen, entry, k' + 1);
    }
  }

  /** Every note not listed before is listed, with the first leaf that shows
      it. */
  lemma {:induction false} ListedAllFirst(leaves: seq<Leaf>, seen: set<string>, entry: OpenFile, k: nat)
    requires k < |leaves| && ListedAt(leaves, seen, entry, k)
    ensures entry in FilesFrom(leaves, seen)
    decreases k
  {
    var rest := leaves[1..];
    var seen' := seen + NotesOf(leaves[0]);
    if k == 0 {
      assert LeafEntry(leaves[0], seen) == [entry];
    } else {
      assert rest[k - 1] == leaves[k];
      assert ListedAt(rest, seen', entry, k - 1);
      ListedAllFirst(rest, seen', entry, k - 1);
    }
  }

  /** An entry is listed exactly when its leaf is the first leaf showing its
      note, and that note was not listed before: every open note appears, with
      the first leaf that shows it. */
  lemma ListedIff(leaves: seq<Leaf>, seen: set<string>, entry: OpenFile)
    ensures entry in FilesFrom(leaves, seen) <==> exists k :: 0 <= k < |leaves| && ListedAt(leaves, seen, entry, k)
  {
    if entry in FilesFrom(leaves, seen) {
      ListedOnlyFirst(leaves, seen, entry);
    }
    if exists k :: 0 <= k < |leaves| && ListedAt(leaves, seen, entry, k) {
      var k :| 0 <= k < |leaves| && ListedAt(leaves, seen, entry, k);
      ListedAllFirst(leaves, seen, entry, k);
    }
  }

  /** The paths of the notes a run of leaves shows. */
  function PathsOf(leaves: seq<Leaf>): set<string> {
    if leaves == [] then {} else NotesOf(leaves[0]) + PathsOf(leaves[1..])
  }

  /** Listing follows leaf order: the entries of an earlier run of leaves come
      first, and the later run sees the earlier notes as listed. */
  lemma {:induction false} FilesAppend(a: seq<Leaf>, b: seq<Leaf>, seen: set<string>)
    ensures FilesFrom(a + b, seen) == FilesFrom(a, seen) + FilesFrom(b, seen + PathsOf(a))
    decreases |a|
  {
    if a == [] {
      assert a + b == b;
      assert seen + PathsOf(a) == seen;
    } else {
      var seen' := seen + NotesOf(a[0]);
      var head := LeafEntry(a[0], seen);
      assert (a + b)[0] == a[0];
      assert (a + b)[1..] == a[1..] + b;
      assert FilesFrom(a + b, seen) == head + FilesFrom(a[1..] + b, seen');
      FilesAppend(a[1..], b, seen');
      assert seen' + PathsOf(a[1..]) == seen + PathsOf(a);
      Regroup(head, FilesFrom(a[1..], seen'), FilesFrom(b, seen + PathsOf(a)));
    }
  }

  /** A card in the cards container. `element` stands for the card element's
      identity; `active` is the `active` class. */
  datatype Card = Card(element: nat, path: string, active: bool)

  /** The card `createCard` makes for `file` on `element`: active exactly when
      its note is the active file. */
  function NewCard(file: OpenFile, activeFile: Option<string>, element: nat): (card: Card)
    ensures card.path == file.path && card.element == element
    ensures card.active ==> activeFile.Some? && activeFile.value == file.path
    ensures activeFile.Some? && activeFile.value == file.path ==> card.active
  {
    Card(element, file.path, activeFile == Some(file.path))
  }

  /** The cards `updateCards` creates for `files`, on elements numbered from
      `first`: one per entry, in order, and active exactly when its note is the
      active file. */
  function CardsFor(files: seq<OpenFile>, activeFile: Option<string>, first: nat): (cards: seq<Card>)
    ensures |cards| == |files|
    ensures forall i :: 0 <= i < |cards| ==> cards[i].path == files[i].path && cards[i].element == first + i
  {
    seq(|files|, i requires 0 <= i < |files| => NewCard(files[i], activeFile, first + i))
  }

  /** The new cards have distinct elements, numbered from `first` on. */
  lemma CardsForElements(files: seq<OpenFile>, activeFile: Option<string>, first: nat)
    ensures var cards := CardsFor(files, activeFile, first);
      && (forall i :: 0 <= i < |cards| ==> first <= cards[i].element < first + |files|)
      && (forall i, j :: 0 <= i < j < |cards| ==> cards[i].element != cards[j].element)
  {
  }

  /** At most one card is active, and one is exactly when the active file is
      open. */
  lemma ActiveCard(leaves: seq<Leaf>, activeFile: Option<string>, first: nat)
    ensures var cards := CardsFor(OpenFiles(leaves), activeFile, first);
      && (forall i, j :: 0 <= i < |cards| && 0 <= j < |cards| && cards[i].active && cards[j].active ==> i == j)
      && ((exists i :: 0 <= i < |cards| && cards[i].active) <==>
          activeFile.Some? && exists i :: 0 <= i < |OpenFiles(leaves)| && OpenFiles(leaves)[i].path == activeFile.value)
  {
    var files := OpenFiles(leaves);
    var cards := CardsFor(files, activeFile, first);
    ListedPathsDistinct(MarkdownLeaves(leaves), {});
    assert forall i :: 0 <= i < |cards| ==> (cards[i].active <==> activeFile == Some(files[i].path));
  }

  /** `indexOf` of a card element among the cards: its position, or -1. */
  function IndexOfElement(cards: seq<Card>, element: nat): (i: int)
    ensures -1 <= i < |cards|
    ensures i >= 0 ==> cards[i].element == element && forall j :: 0 <= j < i ==> cards[j].element != element
    ensures i == -1 ==> forall j :: 0 <= j < |cards| ==> cards[j].element != element
  {
    if cards == [] then -1
    else if cards[0].element == element then 0
    else
      var rest := IndexOfElement(cards[1..], element);
      if rest == -1 then -1 else rest + 1
  }

  /** The card drop: `dragged` is dropped on the card at `target`. When it lies
      before the target it goes after it, otherwise before it; a dragged card
      that is no longer in the container (`indexOf` gives -1) is inserted after
      the target. */
  function DropOnto(cards: seq<Card>, dragged: Card, target: nat): (moved: seq<Card>)
    requires target < |cards| && dragged.element != cards[target].element
  {
    var from := IndexOfElement(cards, dragged.element);
    if from == -1 then Insert(cards, target + 1, dragged)
    else
      var rest := Without(cards, from);
      // where the target is once the dragged card has been taken out
      var at := if from < target then target - 1 else target;
      if from < target then Insert(rest, at + 1, dragged) else Insert(rest, at, dragged)
  }

  /** Both directions of a move within the container come to the same thing:
      the card leaves its place and is put at the target's old index. */
  lemma DropWithinIsInsert(cards: seq<Card>, dragged: Card, target: nat)
    requires target < |cards| && dragged.element != cards[target].element
    requires IndexOfElement(cards, dragged.element) >= 0
    ensures DropOnto(cards, dragged, target) == Insert(Without(cards, IndexOfElement(cards, dragged.element)), target, dragged)
  {
  }

  /** A card moved within the container lands where the target was, and every
      card between the two positions shifts by one towards the old place of
      the moved card: a shift, not a swap. The cards outside that stretch stay
      where they are. */
  lemma DropShifts(cards: seq<Card>, dragged: Card, target: nat)
    requires target < |cards| && dragged.element != cards[target].element
    requires IndexOfElement(cards, dragged.element) >= 0
    ensures var from := IndexOfElement(cards, dragged.element);
      var moved := DropOnto(cards, dragged, target);
      && |moved| == |cards|
      && moved[target] == dragged
      && (forall k :: from <= k < target ==> moved[k] == cards[k + 1])
      && (forall k :: target < k <= from ==> moved[k] == cards[k - 1])
      && (forall k :: 0 <= k < |cards| && k < from && k < target ==> moved[k] == cards[k])
      && (forall k :: 0 <= k < |cards| && k > from && k > target ==> moved[k] == cards[k])
  {
    DropWithinIsInsert(cards, dragged, target);
    MoveShifts(cards, IndexOfElement(cards, dragged.element), target, dragged);
  }

  /** Removing the moved card from before and after the move leaves the same
      cards in the same order. */
  lemma DropKeepsOtherOrder(cards: seq<Card>, dragged: Card, target: nat)
    requires target < |cards| && dragged.element != cards[target].element
    requires IndexOfElement(cards, dragged.element) >= 0
    ensures Without(DropOnto(cards, dragged, target), target) == Without(cards, IndexOfElement(cards, dragged.element))
  {
    DropWithinIsInsert(cards, dragged, target);
    WithoutInsert(Without(cards, IndexOfElement(cards, dragged.element)), target, dragged);
  }

  /** A move within the container keeps the same cards. */
  lemma DropKeepsCards(cards: seq<Card>, dragged: Card, target: nat)
    requires target < |cards| && dragged.element != cards[target].element
    requires IndexOfElement(cards, dragged.element) >= 0
    requires cards[IndexOfElement(cards, dragged.element)] == dragged
    ensures multiset(DropOnto(cards, dragged, target)) == multiset(cards)
  {
    var from := IndexOfElement(cards, dragged.element);
    var rest := Without(cards, from);
    DropWithinIsInsert(cards, dragged, target);
    InsertMultiset(rest, target, dragged);
    WithoutMultiset(cards, from);
  }

  /** A stale dragged card is added to the cards, right after the target. */
  lemma DropAddsStaleCard(cards: seq<Card>, dragged: Card, target: nat)
    requires target < |cards| && dragged.element != cards[target].element
    requires IndexOfElement(cards, dragged.element) == -1
    ensures var moved := DropOnto(cards, dragged, target);
      && multiset(moved) == multiset(cards) + multiset{dragged}
      && moved[target + 1] == dragged
      && moved[target] == cards[target]
  {
    InsertMultiset(cards, target + 1, dragged);
  }

  /** The card elements are distinct and all below `next`, the next element to
      be created; the dragged card, current or stale, is below it too, and is
      the only card with its element. */
  predicate CardsSound(cards: seq<Card>, next: nat, dragged: Option<Card>) {
    && (forall i :: 0 <= i < |cards| ==> cards[i].element < next)
    && (forall i, j :: 0 <= i < j < |cards| ==> cards[i].element != cards[j].element)
    && (dragged.Some? ==> dragged.value.element < next)
    && (dragged.Some? ==>
          forall i :: 0 <= i < |cards| && cards[i].element == dragged.value.element ==> cards[i] == dragged.value)
  }

  /** Cards created on elements from `next` on are sound with any dragged card
      created before them. */
  lemma FreshCardsSound(cards: seq<Card>, files: seq<OpenFile>, activeFile: Option<string>, first: nat, next: nat, dragged: Option<Card>)
    requires cards == CardsFor(files, activeFile, first) && next == first + |files|
    requires dragged.Some? ==> dragged.value.element < first
    ensures CardsSound(cards, next, dragged)
  {
    CardsForElements(files, activeFile, first);
  }

  class NotesExplorerView {
    const workspace: Workspace
    /** The timers this view set. */
    const timers: TimerQueue
    /** The cards container's children, in order. */
    var cards: seq<Card>
    /** Whether the container shows the empty-state message. */
    var showsEmptyMessage: bool
    /** The next card element to be created. */
    var nextElement: nat
    /** `draggedCard` (with `draggedFile`, its path). */
    var draggedCard: Option<Card>
    /** `updateDebounceTimer`. */
    var updateDebounceTimer: Option<nat>

    /** Card elements are distinct and were created by this view; the dragged
        card is one of them, current or stale; the only timer that can be
        pending is the one in the debounce slot. */
    ghost predicate Valid()
      reads this, timers
    {
      && TimersSound()
      && CardsSound(cards, nextElement, draggedCard)
    }

    /** The only timer that can be pending is the one in the debounce slot. */
    ghost predicate TimersSound()
      reads this`updateDebounceTimer, timers
    {
      && timers.Valid()
      && timers.pending <= (if updateDebounceTimer.Some? then {updateDebounceTimer.value} else {})
    }

    /** A fresh view: no cards, nothing dragged, no timer. */
    constructor (workspace: Workspace)
      ensures Valid() && fresh(timers)
      ensures this.workspace == workspace
      ensures cards == [] && !showsEmptyMessage && draggedCard.None? && updateDebounceTimer.None?
    {
      this.workspace := workspace;
      timers := new TimerQueue();
      cards := [];
      showsEmptyMessage := false;
      nextElement := 0;
      draggedCard := None;
      updateDebounceTimer := None;
    }

    /** The debounce slot holds at most one pending timer. */
    lemma AtMostOnePendingTimer()
      requires Valid()
      ensures |timers.pending| <= 1
      ensures updateDebounceTimer.None? ==> timers.pending == {}
    {
      if updateDebounceTimer.Some? {
        var slot := {updateDebounceTimer.value};
        assert |slot| == 1;
        SubsetCard(timers.pending, slot);
      }
    }

    /** `getOpenFiles`: the open notes of the markdown leaves, each once, with
        the first leaf that shows it. */
    method GetOpenFiles() returns (openFiles: seq<OpenFile>)
      ensures openFiles == OpenFiles(workspace.leaves)
      ensures PathsFreshAndDistinct(openFiles, {})
    {
      var leaves := MarkdownLeaves(workspace.leaves);
      openFiles := [];
      var seenPaths: set<string> := {};
      for i := 0 to |leaves|
        invariant openFiles + FilesFrom(leaves[i..], seenPaths) == OpenFiles(workspace.leaves)
      {
        FilesStep(leaves, i, seenPaths);
        ghost var rest := FilesFrom(leaves[i + 1..], seenPaths + NotesOf(leaves[i]));
        var file := FileOf(leaves[i]);
        if file.Some? && file.value !in seenPaths {
          Regroup(openFiles, [OpenFile(file.value, leaves[i])], rest);
          seenPaths := seenPaths + {file.value};
          openFiles := openFiles + [OpenFile(file.value, leaves[i])];
        }
      }
      assert leaves[|leaves|..] == [];
      ListedPathsDistinct(leaves, {});
    }

    /** `createCard`: appends a new card for `file`, active when its note is the
        active file. */
    method CreateCard(file: OpenFile, activeFile: Option<string>)
      modifies this`cards, this`nextElement
      ensures cards == old(cards) + [NewCard(file, activeFile, old(nextElement))]
      ensures nextElement == old(nextElement) + 1
    {
      cards := cards + [NewCard(file, activeFile, nextElement)];
      nextElement := nextElement + 1;
    }

    /** `updateCards`: empties the container, then shows the empty-state
        message when no note is open and one new card per open note
        otherwise. `activeFile` is what `getActiveFile()` returns. */
    method UpdateCards(activeFile: Option<string>)
      requires Valid()
      modifies this`cards, this`showsEmptyMessage, this`nextElement
      ensures Valid()
      ensures showsEmptyMessage <==> OpenFiles(workspace.leaves) == []
      ensures cards == CardsFor(OpenFiles(workspace.leaves), activeFile, old(nextElement))
      ensures nextElement == old(nextElement) + |cards|
    {
      var first := nextElement;
      cards := [];
      showsEmptyMessage := false;
      var openFiles := GetOpenFiles();
      if |openFiles| == 0 {
        showsEmptyMessage := true;
      } else {
        AppendCards(openFiles, activeFile);
      }
      assert cards == CardsFor(openFiles, activeFile, first);
      FreshCardsSound(cards, openFiles, activeFile, first, nextElement, draggedCard);
    }

    /** The `forEach` of `updateCards`: one new card per entry, in order, each
        on a new element. */
    method AppendCards(openFiles: seq<OpenFile>, activeFile: Option<string>)
      modifies this`cards, this`nextElement
      ensures cards == old(cards) + CardsFor(openFiles, activeFile, old(nextElement))
      ensures nextElement == old(nextElement) + |openFiles|
    {
      ghost var start := cards;
      var first := nextElement;
      for i := 0 to |openFiles|
        invariant |cards| == |start| + i
        invariant cards[..|start|] == start
        invariant forall k :: 0 <= k < i ==> cards[|start| + k] == NewCard(openFiles[k], activeFile, first + k)
        invariant nextElement == first + i
      {
        CreateCard(openFiles[i], activeFile);
      }
      assert cards == start + CardsFor(openFiles, activeFile, first);
    }

    /** `dragstart` on the card at `i`. */
    method DragStart(i: nat)
      requires Valid() && i < |cards|
      modifies this`draggedCard
      ensures Valid()
      ensures draggedCard == Some(cards[i])
    {
      draggedCard := Some(cards[i]);
    }

    /** `dragend`: nothing is dragged any more. */
    method DragEnd()
      requires Valid()
      modifies this`draggedCard
      ensures Valid()
      ensures draggedCard.None?
    {
      draggedCard := None;
    }

    /** `drop` on the card at `target`: when a card other than the target is
        being dragged, it is moved next to the target; otherwise nothing
        changes. */
    method Drop(target: nat)
      requires Valid() && target < |cards|
      modifies this`cards
      ensures Valid()
      ensures if old(draggedCard).Some? && old(draggedCard).value.element != old(cards)[target].element
              then cards == DropOnto(old(cards), draggedCard.value, target)
              else cards == old(cards)
    {
      if draggedCard.Some? && draggedCard.value.element != cards[target].element {
        DropSound(cards, draggedCard.value, target, nextElement);
        cards := DropOnto(cards, draggedCard.value, target);
      }
    }

    /** `debouncedUpdate`: cancels the pending update, if any, and schedules a
        new one in the slot. */
    method DebouncedUpdate()
      requires Valid()
      modifies this`updateDebounceTimer, timers
      ensures Valid()
      ensures updateDebounceTimer.Some? && timers.pending == {updateDebounceTimer.value}
    {
      if updateDebounceTimer.Some? {
        timers.ClearTimeout(updateDebounceTimer.value);
      }
      var t := timers.SetTimeout();
      updateDebounceTimer := Some(t);
    }

    /** The scheduled update runs: the cards are rebuilt once and the slot is
        emptied. */
    method FireTimer(t: nat, activeFile: Option<string>)
      requires Valid() && t in timers.pending
      modifies this`cards, this`showsEmptyMessage, this`nextElement, this`updateDebounceTimer, timers
      ensures Valid()
      ensures updateDebounceTimer.None? && timers.pending == {}
      ensures cards == CardsFor(OpenFiles(workspace.leaves), activeFile, old(nextElement))
      ensures nextElement == old(nextElement) + |cards|
      ensures showsEmptyMessage <==> OpenFiles(workspace.leaves) == []
      ensures draggedCard == old(draggedCard)
    {
      timers.Expire(t);
      UpdateCards(activeFile);
      updateDebounceTimer := None;
    }

    /** `onClose`: cancels the pending update. The slot keeps the cancelled
        timer's identifier. */
    method OnClose()
      requires Valid()
      modifies timers
      ensures Valid()
      ensures timers.pending == {}
    {
      if updateDebounceTimer.Some? {
        timers.ClearTimeout(updateDebounceTimer.value);
      }
    }
  }

  /** A stale dragged card goes right after the target: the cards up to the
      target stay where they are, and the later ones move up by one. */
  lemma DropStaleIsInsert(cards: seq<Card>, dragged: Card, target: nat)
    requires target < |cards| && dragged.element != cards[target].element
    requires IndexOfElement(cards, dragged.element) == -1
    ensures DropOnto(cards, dragged, target) == Insert(cards, target + 1, dragged)
    ensures var moved := DropOnto(cards, dragged, target);
      && |moved| == |cards| + 1
      && moved[target + 1] == dragged
      && (forall k :: 0 <= k <= target ==> moved[k] == cards[k])
      && (forall k :: target + 1 < k < |moved| ==> moved[k] == cards[k - 1])
  {
    var moved := DropOnto(cards, dragged, target);
    forall k | 0 <= k < |moved| && k != target + 1
      ensures moved[k] == if k <= target then cards[k] else cards[k - 1]
    {
      InsertedAt(cards, target + 1, dragged, k);
    }
  }

  /** Putting a card with a new element in keeps the elements distinct. */
  lemma ElementsOfInsert(cards: seq<Card>, i: nat, dragged: Card, bound: nat)
    requires i <= |cards|
    requires forall i, j :: 0 <= i < j < |cards| ==> cards[i].element != cards[j].element
    requires forall i :: 0 <= i < |cards| ==> cards[i].element < bound && cards[i].element != dragged.element
    requires dragged.element < bound
    ensures CardsSound(Insert(cards, i, dragged), bound, Some(dragged))
  {
    var moved := Insert(cards, i, dragged);
    forall k | 0 <= k < |moved|
      ensures moved[k] == if k < i then cards[k] else if k == i then dragged else cards[k - 1]
    {
      InsertedAt(cards, i, dragged, k);
    }
  }

  /** A stale dragged card brings a new element in. */
  lemma ElementsOfStaleDrop(cards: seq<Card>, dragged: Card, target: nat, bound: nat)
    requires target < |cards| && dragged.element != cards[target].element
    requires forall i, j :: 0 <= i < j < |cards| ==> cards[i].element != cards[j].element
    requires forall i :: 0 <= i < |cards| ==> cards[i].element < bound
    requires dragged.element < bound
    requires IndexOfElement(cards, dragged.element) == -1
    ensures CardsSound(DropOnto(cards, dragged, target), bound, Some(dragged))
  {
    var moved := Insert(cards, target + 1, dragged);
    DropStaleIsInsert(cards, dragged, target);
    ElementsOfInsert(cards, target + 1, dragged, bound);
    assert CardsSound(moved, bound, Some(dragged));
  }

  /** Taking the card with the dragged element out and putting the dragged card
      in elsewhere only rearranges the elements. */
  lemma ElementsOfMove(cards: seq<Card>, from: nat, target: nat, dragged: Card, bound: nat)
    requires from < |cards| && target < |cards| && cards[from].element == dragged.element
    requires forall i, j :: 0 <= i < j < |cards| ==> cards[i].element != cards[j].element
    requires forall i :: 0 <= i < |cards| ==> cards[i].element < bound
    ensures CardsSound(Insert(Without(cards, from), target, dragged), bound, Some(dragged))
  {
    var moved := Insert(Without(cards, from), target, dragged);
    forall k | 0 <= k < |moved|
      ensures moved[k] == if k == target then dragged else cards[Source(from, target, k)]
    {
      MovedAt(cards, from, target, dragged, k);
    }
    forall i, j | 0 <= i < j < |moved|
      ensures moved[i].element != moved[j].element
    {
      if i == target {
        assert Source(from, target, j) != from;
      } else if j == target {
        assert Source(from, target, i) != from;
      } else {
        assert Source(from, target, i) < Source(from, target, j);
      }
    }
    forall i | 0 <= i < |moved| && i != target
      ensures moved[i].element != dragged.element
    {
      assert Source(from, target, i) != from;
    }
  }

  /** A move within the container only rearranges the elements. */
  lemma ElementsOfDropWithin(cards: seq<Card>, dragged: Card, target: nat, bound: nat)
    requires target < |cards| && dragged.element != cards[target].element
    requires forall i, j :: 0 <= i < j < |cards| ==> cards[i].element != cards[j].element
    requires forall i :: 0 <= i < |cards| ==> cards[i].element < bound
    requires IndexOfElement(cards, dragged.element) >= 0
    ensures CardsSound(DropOnto(cards, dragged, target), bound, Some(dragged))
  {
    DropWithinIsInsert(cards, dragged, target);
    ElementsOfMove(cards, IndexOfElement(cards, dragged.element), target, dragged, bound);
  }

  /** A drop keeps the elements of the cards sound. */
  lemma DropSound(cards: seq<Card>, dragged: Card, target: nat, bound: nat)
    requires target < |cards| && dragged.element != cards[target].element
    requires forall i, j :: 0 <= i < j < |cards| ==> cards[i].element != cards[j].element
    requires forall i :: 0 <= i < |cards| ==> cards[i].element < bound
    requires dragged.element < bound
    ensures CardsSound(DropOnto(cards, dragged, target), bound, Some(dragged))
  {
    if IndexOfElement(cards, dragged.element) == -1 {
      ElementsOfStaleDrop(cards, dragged, target, bound);
    } else {
      ElementsOfDropWithin(cards, dragged, target, bound);
    }
  }
}
