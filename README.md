# Open tabs as canvas cards — a Dafny model

This project models the logic of an Obsidian plugin that exists in two generations, side by side in one repository.

- **The notes explorer** (root `main.ts`) is a side view. It shows one card per open note, highlights the card of the active note, previews each note's first lines, and lets the cards be reordered by drag and drop. It refreshes itself through a one-slot debounce timer.
- **The snapshot exporter** (`src/`) collects every open tab of the workspace, one per leaf id. It lays one card per tab out on a grid, saves the result as a new `.canvas` file under a free name, and focuses a tab when its card is double-clicked on the canvas. Its settings (grid layout on or off, card width and height, grid spacing) have defaults, are merged with stored data on load, and are changed through guarded setting fields.

The host application is given as plain state:

- **Workspace**: the leaves in iteration order and the active leaf.
- **Vault**: a map from every taken path to what it holds: a note, a canvas, or a folder.
- **Timer queue**: the pending timer identifiers.

A host call that can throw (`getViewType()`, `getDisplayText()`, `getIcon()`, `cachedRead`) is an `Outcome` value: `Returned(value)` or `Threw`. A host call whose result the plugin only reacts to is a parameter. These are `createFails` for `vault.create`, `activeFile` for `getActiveFile()`, and an already-parsed `Option<int>` for a number typed into a setting field.

Modules, one per file:

- `Wrappers` has `Option` and `Outcome`.
- `Seqs` has generic facts about inserting into sequences and removing from them.
- `Text` has JavaScript's number printing, `includes`, `split`/`join` and `trim`.
- `Interfaces` has the records of `src/interfaces.ts` and the canvas file records.
- `Host` has the workspace, vault and timers.
- `CanvasGeneration`, `TabCollection` and `CanvasInteraction` are the three services of `src/services/`.
- `Plugin` is `src/main.ts`.
- `Preview` and `NotesExplorer` are root `main.ts`.

Each stateful operation is a method on a class with the source's fields. It is proved against a specification function on the old state: `OpenTabs`, `CanvasFromTabs`, `GridPosition`, `CandidatePath`, `OpenFiles`, `CardsFor` and `DropOnto`. The lemmas beside those functions state what the source promises:

- ids and paths are distinct;
- first-seen order is kept, with membership characterised in both directions;
- card positions are distinct and the column count is least;
- candidate names are injective;
- a drop is a shift that keeps the other cards' order;
- the preview ignores leading blank lines and everything after three lines;
- loading saved settings gives them back.

## Model

| member | source | states |
|---|---|---|
| `CanvasGeneration.Columns` | src/services/CanvasGenerationService.ts:111 | The column count is at least 1, holds all n cards (n <= c*c), and one column fewer would not (the integer reading of `max(1, ceil(sqrt(n)))`). |
| `CanvasGeneration.ColumnsIsLeast` | src/services/CanvasGenerationService.ts:111 | Every smaller positive column count d has d*d < n, so `Columns(n)` is the least count that fits. |
| `CanvasGeneration.GridPosition` | src/services/CanvasGenerationService.ts:99-126 | The first card sits at the origin in both layouts. Without auto-layout every card is in column x = 0. In the grid, the first `cols` cards form the top row, y = 0. |
| `CanvasGeneration.GridCell` | src/services/CanvasGenerationService.ts:118-126 | In the grid, card i sits in column `i % cols` < cols and row `i / cols` < cols, and `row * cols + col == i`. |
| `CanvasGeneration.GridPositionInjective` | src/services/CanvasGenerationService.ts:99-126 | When card plus spacing is positive in both directions, two cards of one layout share a position only if they are the same card, in the single-column and the grid layout alike. |
| `CanvasGeneration.CreateCardNode` | src/services/CanvasGenerationService.ts:53-89 | The card takes the given id, position, configured width and height, and the tab's leaf id. It is a file card on the tab's path exactly when the path is non-empty and the view is markdown or canvas, otherwise a text card `name\n(type)`. Its colour is "1" exactly when the tab is active and absent otherwise. |
| `CanvasGeneration.NodeIdInjective` | src/services/CanvasGenerationService.ts:42 | Different tab indices give different `tab-node-<i>` ids. |
| `CanvasGeneration.CanvasFromTabs` | src/services/CanvasGenerationService.ts:27-48 | One card per tab and no edges. Card i has id `tab-node-i`, tab i's leaf id, and grid position i for a layout of all the tabs. |
| `CanvasGeneration.CanvasFromTabsCards` | src/services/CanvasGenerationService.ts:27-48 | The exported canvas has exactly one card per tab, in tab order, each carrying its tab's leaf id, and no edges. Card ids are pairwise distinct. With room between cards, no two cards share a position. |
| `CanvasGeneration.CandidatePathInjective` | src/services/CanvasGenerationService.ts:136-145 | Two collision counters give the same candidate path only if they are equal, so every retry tries a new name. |
| `CanvasGeneration.CandidatePathShape` | src/services/CanvasGenerationService.ts:136-144 | Every candidate path starts with the canvas name and ends in ".canvas". Only the first candidate (counter 0) has nothing in between. |
| `CanvasGeneration.CanvasGenerationService.constructor` | src/services/CanvasGenerationService.ts:14-22 | The exporter holds the vault and the very settings object it is given, and starts with an empty canvas. |
| `CanvasGeneration.CanvasGenerationService.CalculateGridLayout` | src/services/CanvasGenerationService.ts:94-129 | Returns exactly `nodeCount` positions (none for zero). Position i is `(0, i*(h+s))` without auto-layout and `(col*(w+s), row*(h+s))` in the grid, read from the current settings. |
| `CanvasGeneration.CanvasGenerationService.GenerateCanvasFromTabs` | src/services/CanvasGenerationService.ts:27-48 | Discards the previous canvas. The new canvas, stored in the field and returned, is `CanvasFromTabs`: card i made from tab i with id `tab-node-i` at grid position i, and no edges. |
| `CanvasGeneration.CanvasGenerationService.ChooseCanvasPath` | src/services/CanvasGenerationService.ts:136-146 | The chosen path is not taken. It is the k-th candidate (`<name>.canvas`, then `<name> 1.canvas`, ...) with every earlier candidate taken, so it is the first free one. |
| `CanvasGeneration.CanvasGenerationService.SaveCanvasToFile` | src/services/CanvasGenerationService.ts:134-159 | Returns no file exactly when `vault.create` throws, and then the vault is unchanged. Otherwise the vault gains exactly one file, at the first free candidate path, holding the current canvas. |
| `TabCollection.ExtractTabInfo` | src/services/TabCollectionService.ts:43-82 | No record exactly when `getViewType()` throws. Otherwise the record has: the leaf id; the file path or ""; the display text, or "Unnamed Tab" when it throws; the view type, or "unknown" when there is no view or the type is empty; the icon, or "file-text" when it is empty or throws; and `isActive` exactly when the leaf is the active leaf. |
| `TabCollection.ExtractedTypeAndIconNonEmpty` | src/services/TabCollectionService.ts:59-67 | The defaults leave no extracted tab with an empty view type or icon. |
| `TabCollection.LeafTabs` | src/services/TabCollectionService.ts:21-30 | A leaf contributes a record exactly when its id was not seen and its record can be read, and then exactly its record. |
| `TabCollection.CollectStep` | src/services/TabCollectionService.ts:19-31 | One iteration step: a seen id adds nothing; an unseen id is marked seen and adds the leaf's record when there is one. |
| `TabCollection.OpenTabs` | src/services/TabCollectionService.ts:13-38 | The tabs of the whole workspace, collected from an empty seen set, have pairwise distinct leaf ids. |
| `TabCollection.CollectedIdsFresh` | src/services/TabCollectionService.ts:15-25 | No collected tab has an already-seen id, and no two collected tabs share a leaf id. |
| `TabCollection.CollectAppend` | src/services/TabCollectionService.ts:19-31 | Collection follows leaf order: the tabs of earlier leaves precede those of later leaves, and the later leaves see the earlier ids as seen. |
| `TabCollection.CollectedOnlyFirst` | src/services/TabCollectionService.ts:19-31 | Every collected tab is the record of a leaf that is the first with its id, and whose id was unseen. |
| `TabCollection.CollectedAllFirst` | src/services/TabCollectionService.ts:19-31 | The record of every leaf that is the first with its id, with an unseen id, is collected: a leaf is omitted only when its id repeats or its record cannot be read. |
| `TabCollection.CollectedIff` | src/services/TabCollectionService.ts:19-31 | Both directions together: a tab is collected exactly when it is the readable record of the first leaf with its id. |
| `TabCollection.LastIndexWithId` | src/services/TabCollectionService.ts:90-96 | The index of the last leaf with the id, with no later leaf carrying it, or -1 exactly when no leaf has the id. |
| `TabCollection.LastWithId` | src/services/TabCollectionService.ts:90-96 | There is a last leaf with the id exactly when some leaf has that id. |
| `TabCollection.TabCollectionService.GetAllOpenTabs` | src/services/TabCollectionService.ts:13-38 | Returns `OpenTabs` of the workspace (one record per first-seen leaf id, in leaf order), and no two returned tabs share a leaf id. |
| `TabCollection.TabCollectionService.FocusTab` | src/services/TabCollectionService.ts:87-99 | Returns true exactly when some leaf has the id. Then the active leaf is the last such leaf, since each match is activated in turn. Otherwise the active leaf is unchanged. The leaves never change. |
| `TabCollection.TabCollectionService.GetActiveTab` | src/services/TabCollectionService.ts:104-108 | No tab exactly when there is no active leaf or its record cannot be read. A returned tab is the active leaf's and is marked active. |
| `CanvasInteraction.LooksLikeNodeSimplified` | src/services/CanvasInteractionService.ts:90-94 | The class-name test for "canvas-node" adds nothing: an element looks like a card exactly when its class name contains "node" or it has `data-node-id`. |
| `CanvasInteraction.FirstCandidateFrom` | src/services/CanvasInteractionService.ts:86-110 | From a depth on, finds the first element within the first ten that looks like a card or a label, with no candidate before it. When none is found, no element in the window is a candidate. |
| `CanvasInteraction.FindCanvasNodeElement` | src/services/CanvasInteractionService.ts:81-111 | Inspects at most ten elements, the target and its ancestors. Returns the depth of the first that looks like a card, or has text and is under 300 by 200 pixels. Returns nothing when no element of the window qualifies or the chain ends first. |
| `CanvasInteraction.FindNode` | src/services/CanvasInteractionService.ts:63 | Returns the first canvas card with the id, or nothing exactly when no card has it. |
| `CanvasInteraction.DoubleClickFocusId` | src/services/CanvasInteractionService.ts:47-76 | A leaf id is returned exactly when there is a target, the walk finds a card element, and the FIRST canvas card with that element's id (`find`) carries a non-empty leaf id. The returned id is that card's leaf id. |
| `CanvasInteraction.CanvasInteractionService.AttachCanvasEventListeners` | src/services/CanvasInteractionService.ts:15-41 | `attachCanvasEventListeners` registers one more double-click listener for the leaf exactly when `AttachesListeners` admits it: the view exists, `getViewType()` returns "canvas", and the view has a container. A missing view, a throwing or different view type, or a missing container registers nothing and the call returns normally (the error is caught). Attaching twice to the same leaf registers two listeners. |
| `CanvasInteraction.CanvasInteractionService.constructor` | src/services/CanvasInteractionService.ts:6-10 | The service keeps the tab collection service it is given. |
| `CanvasInteraction.CanvasInteractionService.HandleCanvasCardDoubleClick` | src/services/CanvasInteractionService.ts:47-76 | Focuses the leaf of the clicked card when there is a non-empty leaf id to focus, making the last leaf with that id active. Otherwise the active leaf is unchanged. The leaves never change. |
| `Plugin.MergeSettings` | src/main.ts:166-168 | Missing stored data loads as the defaults. Otherwise each setting comes from the stored data when present and from `DEFAULT_SETTINGS` (grid on, 250, 150, 50) when absent. |
| `Plugin.LoadAfterSave` | src/main.ts:166-172 | Loading the data that `saveSettings` stored gives the same settings back. |
| `Plugin.LoadedSettingsValid` | src/main.ts:166-168 | Loading merges the stored fields over the defaults; whenever every stored card size present is positive and any stored spacing present is not negative, including when nothing or only some fields are stored, the loaded settings are valid. |
| `Plugin.WithCardWidth` | src/main.ts:56-62 | The width changes to the parsed number exactly when there is a number above zero. Otherwise the settings are unchanged. |
| `Plugin.WithCardHeight` | src/main.ts:72-78 | The height changes to the parsed number exactly when there is a number above zero. Otherwise the settings are unchanged. |
| `Plugin.WithGridSpacing` | src/main.ts:88-94 | The spacing changes to the parsed number exactly when there is a number of at least zero, zero included. Negatives and non-numbers leave the settings unchanged. |
| `Plugin.SettersKeepSettingsValid` | src/main.ts:16-94 | The defaults have positive sizes and non-negative spacing, and neither the toggle nor any setting field can break that. |
| `Plugin.ValidSettingsSpreadCards` | src/services/CanvasGenerationService.ts:99-126 | Under such settings no two cards of an export share a position. |
| `Plugin.NoticeText` | src/main.ts:179-207 | The command ends with "No open tabs found", "Failed to create canvas file", or a text starting "Created canvas with ", one per outcome. |
| `Plugin.SchedulesAttach` | src/main.ts:139-149 | The `active-leaf-change` listener schedules an attach exactly when there is a leaf with a view whose `getViewType()` returns "canvas". Every leaf the attach gate `CanvasInteraction.AttachesListeners` accepts is scheduled. |
| `Plugin.OpenTabsCanvasPlugin.constructor` | src/main.ts:105-120 | `onload` loads the merged settings, and builds the services over the same workspace, vault and settings object. |
| `Plugin.OpenTabsCanvasPlugin.SetAutoLayout` | src/main.ts:43-46 | The toggle always sets the layout flag and saves all four settings. |
| `Plugin.OpenTabsCanvasPlugin.SetCardWidth` | src/main.ts:56-62 | The settings become `WithCardWidth`. The settings are saved exactly when the value was accepted. |
| `Plugin.OpenTabsCanvasPlugin.SetCardHeight` | src/main.ts:72-78 | The settings become `WithCardHeight`. The settings are saved exactly when the value was accepted. |
| `Plugin.OpenTabsCanvasPlugin.SetGridSpacing` | src/main.ts:88-94 | The settings become `WithGridSpacing`. The settings are saved exactly when the value was accepted. |
| `Plugin.OpenTabsCanvasPlugin.CreateCanvasFromOpenTabs` | src/main.ts:174-213 | Ends with "no tabs" exactly when no tab is open, and then nothing is generated or saved. Otherwise the canvas is built from the open tabs under the current settings. Saving fails exactly when `vault.create` throws, and then the vault is unchanged. On success, the one new file sits at a path not taken before, and the tab count is reported. The notice shown is the one of the outcome. |
| `Preview.NonBlankLines` | main.ts:245 | Keeps only lines that are not blank, never more lines than given. |
| `Preview.NonBlankLinesMembers` | main.ts:245 | A line survives exactly when it is one of the lines and is not blank, and it survives untrimmed. |
| `Preview.RemoveMarkup` | main.ts:248 | The result holds none of `#*_[]()` and is no longer than the input. A single markup character is dropped and any other single character is kept. |
| `Preview.RemoveMarkupAppend` | main.ts:248 | Removing markup from two pieces of text is removing it from each, so the kept characters stay in their order and keep their number. |
| `Preview.RemoveMarkupKeepsText` | main.ts:248 | A character survives exactly when it occurs in the input and is not markup. |
| `Preview.RemoveMarkupOfClean` | main.ts:248 | Text without markup passes through unchanged. |
| `Preview.PreviewLines` | main.ts:243-246 | The preview lines are the first non-blank lines of the note, in order: a prefix of all its non-blank lines, three of them or all when there are fewer. |
| `Preview.PreviewText` | main.ts:243-251 | The preview is never empty, is at most 150 characters long, and holds no markup, because stripping comes before the cut. When nothing is left it is "Empty note". Otherwise it is the start of the stripped text, cut to 150. |
| `Preview.LoadFilePreview` | main.ts:239-255 | A read that throws shows "Unable to load preview". Otherwise the card shows `PreviewText` of the note. Either way the text is non-empty and at most 150 characters. |
| `Preview.PreviewOfPlainLine` | main.ts:243-251 | A note of one short, non-blank line without markup is previewed as exactly that line, spaces included (lines are not trimmed). |
| `Preview.LeadingBlankLineIgnored` | main.ts:244-245 | A blank first line does not change the preview. |
| `Preview.ThreeLinesSuffice` | main.ts:246 | After three non-blank lines, the rest of the note does not change the preview. |
| `Text.TrimEmptyIffBlank` | main.ts:245 | `line.trim().length > 0` holds exactly when the line has a character that is not whitespace. |
| `Text.JoinSplit` | main.ts:244 | Splitting on a character and joining back with it gives the original text. |
| `NotesExplorer.MarkdownLeaves` | main.ts:184 | Only markdown leaves are kept, never more than there are leaves. A single leaf is kept exactly when it is a markdown leaf. |
| `NotesExplorer.MarkdownLeavesMembers` | main.ts:184 | A leaf is kept exactly when it is a workspace leaf showing the markdown type. |
| `NotesExplorer.MarkdownLeavesAppend` | main.ts:184 | Filtering two runs of leaves is filtering each, so the kept leaves stay in workspace order and keep their number. |
| `NotesExplorer.LeafEntry` | main.ts:187-191 | A leaf adds an entry exactly when it shows a note whose path is not yet listed, and then exactly that note with that leaf. |
| `NotesExplorer.FilesStep` | main.ts:186-192 | One loop step: a leaf with an unlisted note adds its entry and marks the path; any other leaf adds nothing and marks nothing. |
| `NotesExplorer.OpenFiles` | main.ts:179-195 | The open notes of the workspace, listed from an empty path set, have pairwise distinct paths. |
| `NotesExplorer.ListedPathsDistinct` | main.ts:181-191 | No listed path was listed before, and no two entries share a path. |
| `NotesExplorer.ListedOnlyFirst` | main.ts:184-194 | Every entry is a note with the first leaf that shows it. |
| `NotesExplorer.ListedAllFirst` | main.ts:184-194 | Every note shown by a markdown leaf, not listed before, is listed with its first leaf: leaves without a file are the only ones skipped besides repeats. |
| `NotesExplorer.ListedIff` | main.ts:184-194 | Both directions together: an entry is listed exactly when its leaf is the first leaf showing its note. |
| `NotesExplorer.FilesAppend` | main.ts:186-192 | Listing follows leaf order: entries of earlier leaves precede those of later leaves, which see the earlier paths as listed. |
| `NotesExplorer.CardsFor` | main.ts:174-176 | One card per open note, in order, each on a new element numbered from the first. |
| `NotesExplorer.NewCard` | main.ts:197-206 | A new card is for the note's path, on the given element, and active exactly when the active file is that note. |
| `NotesExplorer.CardsForElements` | main.ts:174-176 | The new cards' elements are distinct and lie in the new range. |
| `NotesExplorer.ActiveCard` | main.ts:202-206 | At most one card is active, and one is exactly when the active file is among the open notes. |
| `NotesExplorer.IndexOfElement` | main.ts:298-299 | `indexOf`: the first position of the element, or -1 exactly when the element is not among the cards. |
| `NotesExplorer.DropWithinIsInsert` | main.ts:301-305 | Moving a card within the container, in either direction, takes it out and puts it in at the target's old index. |
| `NotesExplorer.DropShifts` | main.ts:296-306 | The dragged card lands at the target's old index. The cards between the two places shift by one toward the dragged card's old place, a shift and not a swap. All other cards stay put. |
| `NotesExplorer.DropKeepsOtherOrder` | main.ts:296-306 | Without the dragged card, the cards before and after the drop are the same, in the same order. |
| `NotesExplorer.DropKeepsCards` | main.ts:296-306 | A move within the container keeps the same multiset of cards. |
| `NotesExplorer.DropAddsStaleCard` | main.ts:298-302 | A dragged card no longer in the container (`indexOf` is -1, below the target) is inserted right after the target, adding one card. |
| `NotesExplorer.DropStaleIsInsert` | main.ts:298-302 | A stale drop is an insertion right after the target: the result is one card longer, the cards up to the target stay, the dragged card is at target + 1, and every later card moves up by one. |
| `NotesExplorer.FreshCardsSound` | main.ts:161-177 | Cards rebuilt on new elements have distinct elements created by the view, and any earlier dragged card cannot coincide with them. |
| `NotesExplorer.DropSound` | main.ts:296-306 | A drop keeps the card elements distinct and created by the view, and the dragged card is the only card on its element. |
| `NotesExplorer.NotesExplorerView.constructor` | main.ts:56-64 | A new view has no cards, nothing dragged, no debounce timer and no pending timer. |
| `NotesExplorer.NotesExplorerView.AtMostOnePendingTimer` | main.ts:111-119 | At most one timer is pending, and none when the slot is empty. |
| `NotesExplorer.NotesExplorerView.GetOpenFiles` | main.ts:179-195 | Returns `OpenFiles` of the workspace (the first markdown leaf per note path, in order), and no two entries share a path. |
| `NotesExplorer.NotesExplorerView.CreateCard` | main.ts:197-206 | Appends one new card on a new element, for the note's path, active exactly when it is the active file. |
| `NotesExplorer.NotesExplorerView.AppendCards` | main.ts:174-176 | Appends the cards for the entries, one per entry, in order, on new elements. |
| `NotesExplorer.NotesExplorerView.UpdateCards` | main.ts:161-177 | Empties the container. The empty-state message is shown exactly when no note is open. The cards are then exactly one per open note, in order, each active exactly when it is the active file. Card elements stay distinct. |
| `NotesExplorer.NotesExplorerView.DragStart` | main.ts:258-267 | The card at the index becomes the dragged card. |
| `NotesExplorer.NotesExplorerView.DragEnd` | main.ts:269-277 | Nothing is dragged any more. |
| `NotesExplorer.NotesExplorerView.Drop` | main.ts:291-307 | When a card other than the target is dragged, the cards become `DropOnto`. When nothing is dragged or the card is dropped on itself, nothing changes. |
| `NotesExplorer.NotesExplorerView.DebouncedUpdate` | main.ts:111-119 | Cancels the pending update, if any, and leaves exactly one pending timer, the one in the slot, however often it is called. |
| `NotesExplorer.NotesExplorerView.FireTimer` | main.ts:115-118 | The pending timer runs `updateCards` once. The cards become one per open note on new elements, the slot is emptied, and no timer is pending. A drag in progress survives the rebuild. |
| `NotesExplorer.NotesExplorerView.OnClose` | main.ts:310-315 | Cancels the pending update: no timer is pending afterwards. |

## Left out

- `menu-view.ts`: toolbar wiring whose only arithmetic is floating-point zoom stepping. It reads fields of a view whose implementation is not part of this model.
- `notes-explorer.d.ts`: type declarations only.
- The Playwright screenshot script under `jules-scratch/`: browser I/O.
- Root `main.ts` `onload`, `activateView`, `onOpen` and `setupDropZone`, all DOM and host wiring:
  - registering the view, the ribbon icon and the workspace events that call `debouncedUpdate`;
  - creating the container;
  - the container-level drag and drop.
- The close button of a card (`leaf.detach()` and a notice), the card click that activates its leaf, and the `dragover`/`dragleave` CSS classes: host calls and styling.
- The card title (`file.basename`), the `data-path` attribute and `draggable`. A card is modelled by its element, its path and its `active` class.
- `draggedFile` is not a separate field: it is always the path of `draggedCard`.
- `getLeavesOfType('markdown')` is modelled as keeping the leaves whose view reports the markdown type. A note is a view's file, if any (`instanceof TFile`).
- `getActiveFile()` is the `activeFile` parameter of `UpdateCards`, read once per rebuild. The source reads it again for every card within one synchronous loop, which gives the same value.
- `cachedRead` is asynchronous and can throw. Its result is the `Outcome` passed to `LoadFilePreview`. When the preview arrives relative to other events is not modelled.
- Timers are `window.setTimeout`/`clearTimeout` on a queue of pending identifiers. The delays and the interleaving of events are left out.
- `NotesExplorer.NotesExplorerView.OnClose` clears the pending timer but does not reset `updateDebounceTimer` to null. It is modelled as written, so the slot may hold a cancelled timer's identifier afterwards.
- `normalizePath` is the identity. The candidate names the exporter builds contain no characters it would change when the canvas name is the default.
- `JSON.stringify` of the canvas: the vault stores the canvas record itself.
- `Notice`, `console` logging, `registerDomEvent` and opening the new canvas in a leaf: host side effects. The command returns the text of its notice instead of showing it.
- `parseInt`: a setting field receives the already-parsed `Option<int>`, with `None` for NaN.
- `Math.sqrt`/`Math.ceil`: floating point, replaced by the integer characterisation `Columns`. Sizes are unbounded integers, with no 64-bit float rounding.
- `Object.assign` over stored data with keys other than the four settings: extra keys are not modelled.
- `view.canvas.nodes` is given to the double-click handler as the list of live cards (id and metadata leaf id). A view without a canvas, which the source catches, is not modelled.
- `Plugin.OpenTabsCanvasPlugin.CreateCanvasFromOpenTabs` does not model the outer `catch` ("Error creating canvas from open tabs"). Within the model no step of the command throws: the tab collection and the save catch their own errors.
- `CanvasInteraction.CanvasInteractionService.AttachCanvasEventListeners` records a registered listener by the leaf's handle; the DOM registration and the console messages are host calls.
- FindCanvasNodeElement: an element's class name is always a string here. On an SVG element `className` is an object, `includes` then throws, and the handler's `catch` ends the double-click with nothing focused. The model instead reads such an ancestor's class name as text and walks on, so `HandleCanvasCardDoubleClick` may focus a tab where the source would not.
- JavaScript strings are UTF-16 code units, and `substring(0, 150)` counts those units. The model counts Dafny characters, so a note with characters outside the Basic Multilingual Plane is cut at a different place.
