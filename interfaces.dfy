/** The records the snapshot exporter passes around (src/interfaces.ts) and the
    host's canvas file records it fills in. */
module Interfaces {
  import opened Wrappers

  /** One open tab as the exporter sees it. */
  datatype OpenTabInfo = OpenTabInfo(
    displayName: string,  // file name or view title
    filePath: string,     // "" for views without a file
    leafId: string,       // the workspace leaf's identifier
    viewType: string,     // "markdown", "canvas", "image", ...
    isActive: bool,       // the tab is the focused one
    icon: Option<string>)

  /** The exporter's settings. Numbers are the integers the setting fields
      accept; stored data is not checked, so any integer may appear. */
  datatype CanvasConfig = CanvasConfig(
    autoLayout: bool,
    cardWidth: int,
    cardHeight: int,
    gridSpacing: int)

  /** The one settings object that the plugin and the exporter share by
      reference: the setting fields write into it, and the exporter reads the
      current values from it. */
  class ConfigObject {
    var config: CanvasConfig

    constructor (initial: CanvasConfig)
      ensures config == initial
    {
      config := initial;
    }
  }

  /** A grid position on the canvas. */
  datatype Position = Position(x: int, y: int)

  /** What a canvas card shows: a file of the vault, or a line of text. */
  datatype NodeContent = FileNode(file: string) | TextNode(text: string)

  /** One card of a canvas file, with the `metadata.leafId` the exporter adds. */
  datatype CanvasNode = CanvasNode(
    id: string,
    content: NodeContent,
    x: int,
    y: int,
    width: int,
    height: int,
    color: Option<string>,
    leafId: string)

  /** A connection between two cards; the exporter never makes one. */
  datatype CanvasEdge = CanvasEdge(id: string, fromNode: string, toNode: string)

  /** The contents of a canvas file. */
  datatype CanvasData = CanvasData(nodes: seq<CanvasNode>, edges: seq<CanvasEdge>)
}
