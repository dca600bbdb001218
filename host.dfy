/** The parts of the host application the plugin reads and changes: workspace
    leaves and the focused leaf, the vault's files, and the window's timers.
    They are given as plain state; the host's own behaviour is not modelled. */
module Host {
  import opened Wrappers
  import opened Interfaces

  /** What a leaf shows. `file` is the path of the open file, if any;
      `viewType` is what `getViewType()` did; `hasContainer` says whether the
      view has a container element. */
  datatype View = View(file: Option<string>, viewType: Outcome<string>, hasContainer: bool)

  /** A workspace leaf. `handle` stands for the leaf object's identity (what
      `===` compares); `id` is the leaf's identifier, which the exporter does
      not assume unique. `displayText` and `icon` are what `getDisplayText()`
      and `getIcon()` did. */
  datatype Leaf = Leaf(
    handle: nat,
    id: string,
    view: Option<View>,
    displayText: Outcome<string>,
    icon: Outcome<string>)

  /** The leaves in `iterateAllLeaves` order and the active leaf. */
  class Workspace {
    var leaves: seq<Leaf>
    var activeLeaf: Option<Leaf>

    constructor (leaves: seq<Leaf>, activeLeaf: Option<Leaf>)
      ensures this.leaves == leaves && this.activeLeaf == activeLeaf
    {
      this.leaves := leaves;
      this.activeLeaf := activeLeaf;
    }
  }

  /** What a vault path holds: a note with its text, a canvas, or a folder. */
  datatype VaultFile = Note(text: string) | CanvasFile(data: CanvasData) | Folder

  /** The vault: every file and folder path it holds. */
  class Vault {
    var files: map<string, VaultFile>

    constructor (files: map<string, VaultFile>)
      ensures this.files == files
    {
      this.files := files;
    }
  }

  /** The window's timers: the identifiers of those still pending. */
  class TimerQueue {
    var pending: set<nat>
    var nextId: nat

    ghost predicate Valid()
      reads this
    {
      forall t :: t in pending ==> t < nextId
    }

    constructor ()
      ensures Valid() && pending == {}
    {
      pending, nextId := {}, 1;
    }

    /** `window.setTimeout`: schedules a new timer and returns its identifier. */
    method SetTimeout() returns (t: nat)
      requires Valid()
      modifies this
      ensures Valid()
      ensures t !in old(pending) && pending == old(pending) + {t}
    {
      t := nextId;
      pending := pending + {t};
      nextId := nextId + 1;
    }

    /** `window.clearTimeout`: cancels a timer if it is still pending. */
    method ClearTimeout(t: nat)
      requires Valid()
      modifies this
      ensures Valid()
      ensures pending == old(pending) - {t}
    {
      pending := pending - {t};
    }

    /** The host runs a pending timer: it stops being pending. */
    method Expire(t: nat)
      requires Valid() && t in pending
      modifies this
      ensures Valid()
      ensures pending == old(pending) - {t}
    {
      pending := pending - {t};
    }
  }
}
