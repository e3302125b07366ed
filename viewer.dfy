/** The matrix viewer page as one session: the component properties the
    callbacks read and write, and one method per callback. A method commits
    all of its callback's outputs together when the callback returns, and
    none of them when it raises or prevents the update. */
module Viewer {
  import opened Ui
  import opened Frames
  import opened Plotting

  /** The checklist entry that turns on bait (sample) clustering. */
  const BaitClustCheck: string := "bait_clust"
  /** The tick checklist entries that show sample (x) and observation (y) tick labels. */
  const SampleTicksCheck: string := "sample_ticks"
  const ObsTicksCheck: string := "obs_ticks"

  /** Why `ParseRawTable` raises for a table that decoded, or `Published` if it
      does not: the tier lookups, then `to_json`, then the metrics. */
  function ParseOutcome(raw: RawTable): (r: Outcome)
    ensures r != NoUpdate
    ensures TierNames(raw.columns, SampleTier) == [] ==> r == Raised(MissingTier(SampleTier))
    ensures r == Published <==>
      && TierNames(raw.columns, SampleTier) != []
      && TierNames(raw.columns, MetadataTier) != []
      && UniqueAxes(DropTier(raw))
      && var cells := SelectedCells(DropTier(raw).columns, TierNames(raw.columns, SampleTier));
         |cells| > 0 && AllNumeric(cells)
    ensures r.Raised? ==>
      r.failure in {MissingTier(SampleTier), MissingTier(MetadataTier), NonUniqueAxis, EmptyMatrix, NonNumericCell}
  {
    HasTierIffNames(raw.columns, SampleTier);
    HasTierIffNames(raw.columns, MetadataTier);
    if !HasTier(raw.columns, SampleTier) then Raised(MissingTier(SampleTier))
    else if !HasTier(raw.columns, MetadataTier) then Raised(MissingTier(MetadataTier))
    else if !UniqueAxes(DropTier(raw)) then Raised(NonUniqueAxis)
    else
      var m := ComputeMetrics(DropTier(raw), TierNames(raw.columns, SampleTier));
      if m.Err? then Raised(m.failure) else Published
  }

  /** A table that parses reports a minimum and a maximum that are cells of
      `sample` columns, and every cell of every `sample` column lies between them. */
  lemma PublishedMetricsFromSamples(raw: RawTable)
    requires ParseOutcome(raw) == Published
    ensures var m := ComputeMetrics(DropTier(raw), TierNames(raw.columns, SampleTier));
      && m.Ok?
      && SampleCell(raw, Num(m.value.min)) && SampleCell(raw, Num(m.value.max))
      && forall c :: SampleCell(raw, c) ==> c.Num? && m.value.min <= c.value <= m.value.max
  {
    assert UniqueAxes(DropTier(raw));
    MetricsFromSampleCells(raw);
    SampleCellsWithinMetrics(raw);
  }

  /** In a table that parses, no name is both a feature and a label: the two
      columns would share that name once the tier is dropped, and `to_json`
      would have raised. */
  lemma PublishedDisjoint(raw: RawTable, n: string)
    requires ParseOutcome(raw) == Published
    ensures !(n in TierNames(raw.columns, SampleTier) && n in TierNames(raw.columns, MetadataTier))
  {
    assert UniqueAxes(DropTier(raw));
    TiersDisjoint(raw, n);
  }

  /** The label dropdown's options as the parse callback builds them: the
      synthetic `None` entry, then one entry appended per label. */
  method BuildLabelOptions(labels: seq<string>) returns (opts: seq<Entry>)
    ensures opts == LabelOptions(labels)
  {
    opts := [NoneEntry];
    for i := 0 to |labels|
      invariant |opts| == i + 1 && opts[0] == NoneEntry
      invariant forall k :: 0 <= k < i ==> opts[k + 1] == Entry(labels[k], labels[k])
    {
      opts := opts + [Entry(labels[i], labels[i])];
    }
    LabelOptionsCharacterised(labels, opts);
  }

  /** The term for the `ph.dendro_heatmap` call the render makes: on the table
      and features, the `ph.prey_leaves` result, the colour lookup, the bounds
      and label, the `ph.bait_leaves` result when bait clustering is on (None
      otherwise) and the `bait_clust` flag. */
  function Drawn(table: Frame, features: seq<string>, labelColumn: string,
                 zmin: real, zmax: real, colormap: string, bait: bool): Heatmap
  {
    Heatmap(table, features, Leaves(Prey, table, features), Hexmap(zmin, zmax, colormap),
            zmin, zmax, labelColumn,
            if bait then Some(Leaves(Bait, table, features)) else None, bait)
  }

  class Session {
    // raw_table_upload: children and style
    var uploadChildren: Option<string>
    var uploadStyle: Option<Style>
    // processed_table: children (the parsed table, kept as the value it serialises)
    var processedTable: Frame
    // features_checklist: options and value
    var featureOptions: seq<Entry>
    var featureSelection: seq<string>
    // label_select: options
    var labelOptions: seq<Entry>
    // data_metrics: data
    var metrics: Option<Metrics>
    // color_button: n_clicks
    var colorClicks: Option<int>
    // read_table_button: style
    var parseStyle: Option<Style>
    // color_bar: figure
    var colorBar: Option<ColorBar>
    // matrix_fig: figure
    var matrixFigure: Option<Figure>
    // generate_matrix: style
    var renderStyle: Option<Style>

    /** What every callback keeps true: the checklist only selects offered
        features, each option shows the name it selects, reported metrics
        are ordered, and the stored table is one `to_json` accepts. No
        callback reads these facts back; they are invariants that every
        method preserves, stating what the page shows at any time. */
    ghost predicate Valid()
      reads this
    {
      && (forall x :: x in featureSelection ==> x in Values(featureOptions))
      && (forall e :: e in featureOptions ==> e.caption == e.value)
      && (metrics.Some? ==> metrics.value.min <= metrics.value.max)
      && UniqueAxes(processedTable)
    }

    /** The page as laid out, before any callback has run. */
    constructor (uploadStyle: Option<Style>, parseStyle: Option<Style>,
                 renderStyle: Option<Style>, colorClicks: Option<int>)
      ensures Valid()
      ensures this.uploadStyle == uploadStyle && this.parseStyle == parseStyle
      ensures this.renderStyle == renderStyle && this.colorClicks == colorClicks
      ensures uploadChildren == None && processedTable == Frame([], [])
      ensures featureOptions == [] && featureSelection == [] && labelOptions == []
      ensures metrics == None && colorBar == None && matrixFigure == None
    {
      this.uploadStyle, this.parseStyle := uploadStyle, parseStyle;
      this.renderStyle, this.colorClicks := renderStyle, colorClicks;
      uploadChildren, processedTable := None, Frame([], []);
      featureOptions, featureSelection, labelOptions := [], [], [];
      metrics, colorBar, matrixFigure := None, None, None;
    }

    /** `display_upload_ms_filename`: echo the chosen file's name and paint
        the upload control ready; nothing without a filename. */
    method DisplayUploadFilename(filename: Option<string>) returns (outcome: Outcome)
      requires Valid()
      modifies this`uploadChildren, this`uploadStyle
      ensures Valid()
      ensures filename.None? ==> outcome == NoUpdate
      ensures filename.Some? && old(uploadStyle).None? ==> outcome == Raised(NoneStyle)
      ensures filename.Some? && old(uploadStyle).Some? ==> outcome == Published
      ensures outcome == Published ==>
        uploadChildren == filename && uploadStyle == Some(MarkReady(old(uploadStyle).value))
      ensures outcome != Published ==> unchanged(this)
    {
      if filename.None? {
        return NoUpdate;
      }
      if uploadStyle.None? {
        return Raised(NoneStyle);
      }
      var style := MarkReady(uploadStyle.value);
      uploadChildren, uploadStyle := filename, Some(style);
      outcome := Published;
    }

    /** `parse_raw_table`: split the decoded table's columns into features
        and labels, offer them, select every feature, report the min and
        max over the feature cells, bump the colour counter and paint the
        parse button ready. `decoded` stands for what decoding the upload
        and reading it with a two-row header yields. */
    method ParseRawTable(nClicks: Option<int>, decoded: Result<RawTable>) returns (outcome: Outcome)
      requires Valid()
      modifies this`processedTable, this`featureOptions, this`featureSelection,
               this`labelOptions, this`metrics, this`colorClicks, this`parseStyle
      ensures Valid()
      ensures nClicks.None? ==> outcome == NoUpdate
      ensures nClicks.Some? && decoded.Err? ==> outcome == Raised(decoded.failure)
      ensures nClicks.Some? && decoded.Ok? ==> outcome == ParseOutcome(decoded.value)
      ensures outcome != Published ==> unchanged(this)
      ensures outcome == Published ==> (decoded.Ok? &&
        var raw := decoded.value;
        var labels := TierNames(raw.columns, MetadataTier);
        && processedTable == DropTier(raw)
        && featureSelection == TierNames(raw.columns, SampleTier)
        && featureOptions == NamedOptions(featureSelection)
        && labelOptions == LabelOptions(labels)
        && metrics == Some(ComputeMetrics(processedTable, featureSelection).value)
        && colorClicks == Some(NextClicks(old(colorClicks)))
        && parseStyle == Some(MarkReady(if old(parseStyle).None? then map[] else old(parseStyle).value)))
      // a changed counter is what makes Dash run `generate_colormap` again
      ensures outcome == Published ==> colorClicks != old(colorClicks)
    {
      if nClicks.None? {
        return NoUpdate;
      }
      if decoded.Err? {
        return Raised(decoded.failure);
      }
      var raw := decoded.value;
      var processed := DropTier(raw);
      if !HasTier(raw.columns, SampleTier) {
        return Raised(MissingTier(SampleTier));
      }
      var features := TierNames(raw.columns, SampleTier);
      if !HasTier(raw.columns, MetadataTier) {
        return Raised(MissingTier(MetadataTier));
      }
      var labels := TierNames(raw.columns, MetadataTier);

      var featuresOpts := NamedOptions(features);

      var labelOpts := BuildLabelOptions(labels);

      if !UniqueAxes(processed) {
        return Raised(NonUniqueAxis);
      }

      var buttonStyle: Style := if parseStyle.None? then map[] else parseStyle.value;
      buttonStyle := MarkReady(buttonStyle);

      var clicks := NextClicks(colorClicks);

      var m := ComputeMetrics(processed, features);
      if m.Err? {
        return Raised(m.failure);
      }
      MetricsOrdered(processed, features);

      PublishParse(processed, featuresOpts, features, labelOpts, m.value, clicks, buttonStyle);
      outcome := Published;
    }

    /** Dash writing the parse callback's seven outputs together. */
    method PublishParse(table: Frame, opts: seq<Entry>, selection: seq<string>, labels: seq<Entry>,
                        m: Metrics, clicks: int, style: Style)
      requires Valid()
      requires Values(opts) == selection && forall e :: e in opts ==> e.caption == e.value
      requires m.min <= m.max && UniqueAxes(table)
      modifies this`processedTable, this`featureOptions, this`featureSelection,
               this`labelOptions, this`metrics, this`colorClicks, this`parseStyle
      ensures Valid()
      ensures processedTable == table && featureOptions == opts && featureSelection == selection
      ensures labelOptions == labels && metrics == Some(m)
      ensures colorClicks == Some(clicks) && parseStyle == Some(style)
    {
      processedTable, featureOptions, featureSelection := table, opts, selection;
      labelOptions, metrics := labels, Some(m);
      colorClicks, parseStyle := Some(clicks), Some(style);
    }

    /** `generate_colormap`: rebuild the colour bar from the bounds and the
        palette; Dash runs it on a scale-button click and whenever the
        colour counter changes. */
    method GenerateColormap(zmin: real, zmax: real, colormap: string)
      modifies this`colorBar
      ensures colorBar == Some(ColorBar(zmin, zmax, colormap))
    {
      colorBar := Some(ColorBar(zmin, zmax, colormap));
    }

    /** The user ticking and unticking features in the checklist, which
        offers only its options. */
    method SelectFeatures(selection: seq<string>)
      requires Valid()
      requires forall x :: x in selection ==> x in Values(featureOptions)
      modifies this`featureSelection
      ensures Valid() && featureSelection == selection
    {
      featureSelection := selection;
    }

    /** `generate_clustergram`: request the prey leaves always and the bait
        leaves only when asked, hand them to `ph.dendro_heatmap`, draw it
        with the chosen tick labels and paint the render button ready.
        `calls` is the library calls this invocation made, in order. */
    method GenerateClustergram(labelColumn: string, zmin: real, zmax: real, colormap: string,
                               clusterChecks: Option<seq<string>>, tickChecks: Option<seq<string>>)
      returns (outcome: Outcome, calls: seq<Call>)
      requires Valid()
      modifies this`matrixFigure, this`renderStyle
      ensures Valid()
      ensures old(renderStyle).None? ==> outcome == Raised(NoneStyle) && calls == []
      ensures old(renderStyle).Some? ==> |calls| > 0 && calls[0] == ColorMapCall(zmin, zmax, colormap)
      ensures old(renderStyle).Some? && clusterChecks.None? ==>
        outcome == Raised(NoneChecklist) && calls == [ColorMapCall(zmin, zmax, colormap)]
      ensures old(renderStyle).Some? && clusterChecks.Some? ==>
        var bait := BaitClustCheck in clusterChecks.value;
        && (LeavesCall(Bait, processedTable, featureSelection) in calls <==> bait)
        && calls == [ColorMapCall(zmin, zmax, colormap)]
                    + (if bait then [LeavesCall(Bait, processedTable, featureSelection)] else [])
                    + [LeavesCall(Prey, processedTable, featureSelection), DendroHeatmapCall(Drawn(
                         processedTable, featureSelection, labelColumn, zmin, zmax, colormap, bait))]
        && outcome == (if tickChecks.None? then Raised(NoneChecklist) else Published)
      ensures outcome != Published ==> unchanged(this)
      ensures outcome == Published ==> (clusterChecks.Some? && tickChecks.Some? &&
        var bait := BaitClustCheck in clusterChecks.value;
        && matrixFigure == Some(Figure(
             Drawn(processedTable, featureSelection, labelColumn, zmin, zmax, colormap, bait),
             SampleTicksCheck in tickChecks.value, ObsTicksCheck in tickChecks.value))
        && renderStyle == Some(MarkReady(old(renderStyle).value)))
    {
      calls := [];
      if renderStyle.None? {
        return Raised(NoneStyle), calls;
      }
      var buttonStyle := MarkReady(renderStyle.value);

      var table := processedTable;
      var features := featureSelection;

      var hexmap := Hexmap(zmin, zmax, colormap);
      calls := calls + [ColorMapCall(zmin, zmax, colormap)];

      var baitLeaves: Option<Leaves> := None;
      var baitClust := false;

      if clusterChecks.None? {
        return Raised(NoneChecklist), calls;
      }
      if BaitClustCheck in clusterChecks.value {
        baitLeaves := Some(Leaves(Bait, table, features));
        calls := calls + [LeavesCall(Bait, table, features)];
        baitClust := true;
      }

      var preyLeaves := Leaves(Prey, table, features);
      calls := calls + [LeavesCall(Prey, table, features)];

      var heatmap := Heatmap(table, features, preyLeaves, hexmap, zmin, zmax, labelColumn,
                             baitLeaves, baitClust);
      calls := calls + [DendroHeatmapCall(heatmap)];

      var xTick := false;
      var yTick := false;
      if tickChecks.None? {
        return Raised(NoneChecklist), calls;
      }
      if SampleTicksCheck in tickChecks.value {
        xTick := true;
      }
      if ObsTicksCheck in tickChecks.value {
        yTick := true;
      }

      matrixFigure, renderStyle := Some(Figure(heatmap, xTick, yTick)), Some(buttonStyle);
      outcome := Published;
    }
  }
}
