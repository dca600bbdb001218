/** The exporter plugin itself (src/main.ts): its settings, their defaults and
    guarded setters, loading stored settings, and the command that snapshots
    the open tabs into a new canvas file. */
module Plugin {
  import opened Wrappers
  import opened Text
  import opened Interfaces
  import opened Host
  import opened TabCollection
  import opened CanvasGeneration
  import opened CanvasInteraction

  /** `DEFAULT_SETTINGS`. */
  const DefaultSettings: CanvasConfig := CanvasConfig(true, 250, 150, 50)

  /** What `loadData()` may return: any of the four settings, each present or
      not. */
  datatype StoredData = StoredData(
    autoLayout: Option<bool>,
    cardWidth: Option<int>,
    cardHeight: Option<int>,
    gridSpacing: Option<int>)

  /** `Object.assign({}, DEFAULT_SETTINGS, data)`: every setting present in the
      stored data wins over its default. */
  function MergeSettings(stored: Option<StoredData>): (config: CanvasConfig)
    ensures stored.None? ==> config == DefaultSettings
    ensures stored.Some? ==>
              && config.autoLayout == (if stored.value.autoLayout.Some? then stored.value.autoLayout.value else DefaultSettings.autoLayout)
              && config.cardWidth == (if stored.value.cardWidth.Some? then stored.value.cardWidth.value else DefaultSettings.cardWidth)
              && config.cardHeight == (if stored.value.cardHeight.Some? then stored.value.cardHeight.value else DefaultSettings.cardHeight)
              && config.gridSpacing == (if stored.value.gridSpacing.Some? then stored.value.gridSpacing.value else DefaultSettings.gridSpacing)
  {
    if stored.None? then DefaultSettings
    else
      var data := stored.value;
      CanvasConfig(
        if data.autoLayout.Some? then data.autoLayout.value else DefaultSettings.autoLayout,
        if data.cardWidth.Some? then data.cardWidth.value else DefaultSettings.cardWidth,
        if data.cardHeight.Some? then data.cardHeight.value else DefaultSettings.cardHeight,
        if data.gridSpacing.Some? then data.gridSpacing.value else DefaultSettings.gridSpacing)
  }

  /** What `saveData(this.settings)` stores: all four settings. */
  function ToStored(config: CanvasConfig): StoredData {
    StoredData(Some(config.autoLayout), Some(config.cardWidth), Some(config.cardHeight), Some(config.gridSpacing))
  }

  /** Loading what was saved gives the same settings back. */
  lemma LoadAfterSave(config: CanvasConfig)
    ensures MergeSettings(Some(ToStored(config))) == config
  {
  }

  /** Stored data whose present sizes are positive and whose present spacing
      is not negative loads as valid settings, whatever is missing. */
  lemma LoadedSettingsValid(stored: Option<StoredData>)
    requires stored.Some? ==>
               && (stored.value.cardWidth.Some? ==> stored.value.cardWidth.value > 0)
               && (stored.value.cardHeight.Some? ==> stored.value.cardHeight.value > 0)
               && (stored.value.gridSpacing.Some? ==> stored.value.gridSpacing.value >= 0)
    ensures ValidSettings(MergeSettings(stored))
  {
  }

  /** Settings the setting fields can produce: positive card sizes and a
      spacing that is not negative. */
  predicate ValidSettings(config: CanvasConfig) {
    config.cardWidth > 0 && config.cardHeight > 0 && config.gridSpacing >= 0
  }

  /** The card width field: a parsed number above zero replaces the width;
      anything else (including no number at all) is ignored. */
  function WithCardWidth(config: CanvasConfig, parsed: Option<int>): (r: CanvasConfig)
    ensures parsed.Some? && parsed.value > 0 ==> r == config.(cardWidth := parsed.value)
    ensures !(parsed.Some? && parsed.value > 0) ==> r == config
  {
    if parsed.Some? && parsed.value > 0 then config.(cardWidth := parsed.value) else config
  }

  /** The card height field: a parsed number above zero replaces the height. */
  function WithCardHeight(config: CanvasConfig, parsed: Option<int>): (r: CanvasConfig)
    ensures parsed.Some? && parsed.value > 0 ==> r == config.(cardHeight := parsed.value)
    ensures !(parsed.Some? && parsed.value > 0) ==> r == config
  {
    if parsed.Some? && parsed.value > 0 then config.(cardHeight := parsed.value) else config
  }

  /** The grid spacing field: any parsed number that is not negative, zero
      included, replaces the spacing. */
  function WithGridSpacing(config: CanvasConfig, parsed: Option<int>): (r: CanvasConfig)
    ensures parsed.Some? && parsed.value >= 0 ==> r == config.(gridSpacing := parsed.value)
    ensures !(parsed.Some? && parsed.value >= 0) ==> r == config
  {
    if parsed.Some? && parsed.value >= 0 then config.(gridSpacing := parsed.value) else config
  }

  /** The defaults are valid, and no setting field can make settings invalid. */
  lemma SettersKeepSettingsValid(config: CanvasConfig, parsed: Option<int>, toggle: bool)
    requires ValidSettings(config)
    ensures ValidSettings(DefaultSettings)
    ensures ValidSettings(WithCardWidth(config, parsed))
    ensures ValidSettings(WithCardHeight(config, parsed))
    ensures ValidSettings(WithGridSpacing(config, parsed))
    ensures ValidSettings(config.(autoLayout := toggle))
  {
  }

  /** Under valid settings every export spreads its cards: no two share a
      position. */
  lemma ValidSettingsSpreadCards(config: CanvasConfig, tabs: seq<OpenTabInfo>, i: nat, j: nat)
    requires ValidSettings(config)
    requires i < j < |tabs|
    ensures var nodes := CanvasFromTabs(config, tabs).nodes;
      (nodes[i].x, nodes[i].y) != (nodes[j].x, nodes[j].y)
  {
    CanvasFromTabsCards(config, tabs);
  }

  /** The `active-leaf-change` listener schedules an attach when the new leaf
      shows a canvas; `getViewType()` throwing there escapes the listener, so
      nothing is scheduled. Every leaf the service would attach to passes this
      gate. */
  function SchedulesAttach(leaf: Option<Leaf>): (scheduled: bool)
    ensures leaf.Some? && AttachesListeners(leaf.value) ==> scheduled
    ensures scheduled ==> leaf.Some? && leaf.value.view.Some? && leaf.value.view.value.viewType == Returned("canvas")
    ensures leaf.Some? && leaf.value.view.Some? && leaf.value.view.value.viewType == Returned("canvas") ==> scheduled
  {
    leaf.Some? && leaf.value.view.Some? && leaf.value.view.value.viewType == Returned("canvas")
  }

  /** How `createCanvasFromOpenTabs` ends. */
  datatype CreateOutcome = NoTabs | SaveFailed | Created(path: string, tabCount: nat)

  /** The notice shown at the end of `createCanvasFromOpenTabs`: each way the
      command can end has its own text. */
  function NoticeText(outcome: CreateOutcome): (text: string)
    ensures outcome.Created? ==> 20 <= |text| && text[..20] == "Created canvas with "
    ensures !outcome.Created? ==> text == if outcome.NoTabs? then "No open tabs found" else "Failed to create canvas file"
  {
    match outcome
    case NoTabs => "No open tabs found"
    case SaveFailed => "Failed to create canvas file"
    case Created(_, count) => "Created canvas with " + NatToString(count) + " tabs"
  }

  class OpenTabsCanvasPlugin {
    /** The settings object, shared with the exporter. */
    var settings: ConfigObject
    /** The plugin's data as last saved. */
    var savedData: Option<StoredData>
    const workspace: Workspace
    const vault: Vault
    var tabCollection: TabCollectionService
    var generation: CanvasGenerationService
    var interaction: CanvasInteractionService

    /** The services work on this plugin's workspace and vault, and the exporter
        reads the very settings object the setting fields write into. */
    ghost predicate Valid()
      reads this, generation, tabCollection, interaction
    {
      && generation.settings == settings
      && generation.vault == vault
      && tabCollection.workspace == workspace
      && interaction.tabCollection == tabCollection
    }

    /** `onload`: loads the settings and creates the services. */
    constructor (workspace: Workspace, vault: Vault, savedData: Option<StoredData>)
      ensures Valid()
      ensures this.workspace == workspace && this.vault == vault && this.savedData == savedData
      ensures settings.config == MergeSettings(savedData)
      ensures generation.canvas == CanvasData([], [])
      ensures fresh(settings) && fresh(generation) && fresh(tabCollection) && fresh(interaction)
    {
      this.workspace := workspace;
      this.vault := vault;
      this.savedData := savedData;
      var loaded := new ConfigObject(MergeSettings(savedData));
      var tabs := new TabCollectionService(workspace);
      settings := loaded;
      tabCollection := tabs;
      generation := new CanvasGenerationService(vault, loaded);
      interaction := new CanvasInteractionService(tabs);
    }

    /** The auto-layout toggle: always accepted and saved. */
    method SetAutoLayout(value: bool)
      requires Valid()
      modifies settings, this`savedData
      ensures Valid()
      ensures settings.config == old(settings.config).(autoLayout := value)
      ensures savedData == Some(ToStored(settings.config))
    {
      settings.config := settings.config.(autoLayout := value);
      savedData := Some(ToStored(settings.config));
    }

    /** The card width field; only an accepted value is saved. */
    method SetCardWidth(parsed: Option<int>)
      requires Valid()
      modifies settings, this`savedData
      ensures Valid()
      ensures settings.config == WithCardWidth(old(settings.config), parsed)
      ensures savedData == if parsed.Some? && parsed.value > 0 then Some(ToStored(settings.config)) else old(savedData)
    {
      if parsed.Some? && parsed.value > 0 {
        settings.config := settings.config.(cardWidth := parsed.value);
        savedData := Some(ToStored(settings.config));
      }
    }

    /** The card height field; only an accepted value is saved. */
    method SetCardHeight(parsed: Option<int>)
      requires Valid()
      modifies settings, this`savedData
      ensures Valid()
      ensures settings.config == WithCardHeight(old(settings.config), parsed)
      ensures savedData == if parsed.Some? && parsed.value > 0 then Some(ToStored(settings.config)) else old(savedData)
    {
      if parsed.Some? && parsed.value > 0 {
        settings.config := settings.config.(cardHeight := parsed.value);
        savedData := Some(ToStored(settings.config));
      }
    }

    /** The grid spacing field; only an accepted value is saved. */
    method SetGridSpacing(parsed: Option<int>)
      requires Valid()
      modifies settings, this`savedData
      ensures Valid()
      ensures settings.config == WithGridSpacing(old(settings.config), parsed)
      ensures savedData == if parsed.Some? && parsed.value >= 0 then Some(ToStored(settings.config)) else old(savedData)
    {
      if parsed.Some? && parsed.value >= 0 {
        settings.config := settings.config.(gridSpacing := parsed.value);
        savedData := Some(ToStored(settings.config));
      }
    }

    /** `createCanvasFromOpenTabs`: with no open tabs nothing is generated or
        saved; otherwise the exporter builds the canvas from the current
        settings and saves it under a free name, and the outcome says whether a
        file was created. `createFails` says whether `vault.create` throws. */
    method CreateCanvasFromOpenTabs(createFails: bool) returns (outcome: CreateOutcome, notice: string)
      requires Valid()
      modifies generation, vault
      ensures Valid()
      ensures notice == NoticeText(outcome)
      ensures outcome.NoTabs? <==> OpenTabs(workspace.leaves, workspace.activeLeaf) == []
      ensures outcome.NoTabs? ==> generation.canvas == old(generation.canvas)
      ensures !outcome.NoTabs? ==>
                generation.canvas == CanvasFromTabs(settings.config, OpenTabs(workspace.leaves, workspace.activeLeaf))
      ensures outcome.SaveFailed? <==> !outcome.NoTabs? && createFails
      ensures !outcome.Created? ==> vault.files == old(vault.files)
      ensures outcome.Created? ==>
                && outcome.tabCount == |OpenTabs(workspace.leaves, workspace.activeLeaf)|
                && outcome.path !in old(vault.files)
                && vault.files == old(vault.files)[outcome.path := CanvasFile(generation.canvas)]
    {
      var tabs := tabCollection.GetAllOpenTabs();
      if |tabs| == 0 {
        outcome := NoTabs;
        return outcome, NoticeText(outcome);
      }
      var _ := generation.GenerateCanvasFromTabs(tabs);
      var canvasFile := generation.SaveCanvasToFile(DefaultCanvasName, createFails);
      if canvasFile.Some? {
        outcome := Created(canvasFile.value, |tabs|);
      } else {
        outcome := SaveFailed;
      }
      notice := NoticeText(outcome);
    }
  }
}
