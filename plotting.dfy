/** The clustering and plotting library the viewer calls into
    (`ph.color_map`, `ph.bait_leaves`, `ph.prey_leaves`, `ph.dendro_heatmap`).
    Its algorithms are not part of this model: each result is the symbolic
    term of the call that produced it, so two results are equal exactly when
    they come from the same call on the same arguments, and a figure says which
    calls built it. */
module Plotting {
  import opened Ui
  import opened Frames

  /** The colour-bar figure `ph.color_map` returns first. */
  datatype ColorBar = ColorBar(zmin: real, zmax: real, colormap: string)

  /** The value-to-colour lookup `ph.color_map` returns second. */
  datatype Hexmap = Hexmap(zmin: real, zmax: real, colormap: string)

  /** Which of the two leaf calls a `Leaves` term stands for: `ph.bait_leaves` or `ph.prey_leaves`. */
  datatype Grouping = Bait | Prey

  /** The result of `ph.bait_leaves` or `ph.prey_leaves` called on `table` and `features`. */
  datatype Leaves = Leaves(grouping: Grouping, table: Frame, features: seq<string>)

  /** The heatmap traces `ph.dendro_heatmap` builds from its arguments. */
  datatype Heatmap = Heatmap(
    table: Frame, features: seq<string>, preyLeaves: Leaves, hexmap: Hexmap,
    zmin: real, zmax: real, labelColumn: string,
    baitLeaves: Option<Leaves>, baitClust: bool)

  /** The `matrix_fig` figure: the heatmap with the axis tick-label switches. */
  datatype Figure = Figure(heatmap: Heatmap, showSampleTicks: bool, showObsTicks: bool)

  /** One call into the library, as a call log records it. */
  datatype Call =
    | ColorMapCall(zmin: real, zmax: real, colormap: string)
    | LeavesCall(grouping: Grouping, table: Frame, features: seq<string>)
    | DendroHeatmapCall(heatmap: Heatmap)
}
