# Matrix viewer: verified model of the callback logic

This project models the decisions in the callbacks of pyseus's interactive matrix
viewer (`dash_app/preprocessing_viz/matrix_viewer.py`), a Dash page with three steps:

1. A user uploads a table with a two-row header.
2. The parse button reads the table. It splits the columns into features (header tier
   `sample`) and labels (tier `metadata`), fills the feature checklist and the label
   dropdown, and reports the min and max of the data.
3. The render button draws a clustered heatmap.

The page is modelled as one `Session` object (module `Viewer`). Its fields are the
component properties the callbacks read and write:

- the upload control's text and style;
- the stored parsed table;
- the checklist options and the selected features;
- the label options;
- the metrics;
- the colour button's click counter;
- the colour bar;
- the heatmap figure;
- the parse and render buttons' styles.

Each callback is one method. A method returns an `Outcome`, which is one of three
values:

- `Published`: every output is written together.
- `NoUpdate`: the callback raised `PreventUpdate`, so nothing is written.
- `Raised`: the callback hit a Python exception, so nothing is written.

The pure parts are functions with lemmas. Module `Frames` holds the tier split, the
column selection, and exact min/max. Module `Ui` holds styles, option lists and the
click counter.

The clustering and plotting library (`ph.color_map`, `ph.bait_leaves`,
`ph.prey_leaves`, `ph.dendro_heatmap`) is not part of this model. Module `Plotting`
represents each of its results as the symbolic term of the call that produced it,
such as `Leaves(Prey, table, features)`. Two results are therefore equal exactly when
the calls and their arguments are equal. The render method also returns the list of
library calls it made, so the model can say which calls happen: the bait leaves are
requested only when `'bait_clust'` is checked.

Module `Scenarios` is a client that uses the methods' contracts alone. It parses a
small three-row table and then renders that table on the same page, with and without
bait clustering. A separate scenario checks the upload acknowledgement.

## Model

| member | source | states |
|---|---|---|
| Ui.MarkReady | dash_app/preprocessing_viz/matrix_viewer.py:53 | the style gets `background-color` = `#B6E880`; every other key keeps its value and no other key is added |
| Ui.MarkReadyIdempotent | dash_app/preprocessing_viz/matrix_viewer.py:110 | marking a control ready twice gives the same style as marking it once |
| Ui.NamedOptions | dash_app/preprocessing_viz/matrix_viewer.py:96-97 | the feature options offer exactly the features, in order, and each option's label equals its value |
| Ui.LabelOptions | dash_app/preprocessing_viz/matrix_viewer.py:101-104 | the label options have one more entry than there are labels; the first is `{'None','None'}`; their values are `None` followed by the labels in order |
| Ui.LabelOptionsCharacterised | dash_app/preprocessing_viz/matrix_viewer.py:101-104 | a list is the label options iff its length is one more than the labels, it starts with `None`, and entry k+1 is `{label k, label k}` |
| Ui.NextClicks | dash_app/preprocessing_viz/matrix_viewer.py:112-115 | the counter becomes 1 from None and old + 1 otherwise, so it always differs from its previous value |
| Viewer.ParseOutcome | dash_app/preprocessing_viz/matrix_viewer.py:90-122 | a decoded table is published iff both tiers are present, its row ids and column names are unique (`Frames.UniqueAxes`: otherwise `to_json` raises at line 106) and the feature cells are non-empty and all numbers; a missing `sample` tier raises `MissingTier`; any other failure is a missing `metadata` tier, a repeated label, an empty matrix or a text cell |
| Viewer.PublishedMetricsFromSamples | dash_app/preprocessing_viz/matrix_viewer.py:90-120 | for a table that parses, the reported min and max are cells of `sample` columns and every `sample` cell lies between them |
| Viewer.PublishedDisjoint | dash_app/preprocessing_viz/matrix_viewer.py:90-106 | in a table that parses, no name is both a feature and a label |
| Viewer.BuildLabelOptions | dash_app/preprocessing_viz/matrix_viewer.py:100-104 | the loop that appends the `None` entry and then one entry per label builds exactly `LabelOptions(labels)` |
| Frames.TierNames | dash_app/preprocessing_viz/matrix_viewer.py:91-92 | the list for a tier has at most one name per column, and a name is in it iff some column of that tier carries that name |
| Frames.TierNamesAppend | dash_app/preprocessing_viz/matrix_viewer.py:91-92 | the feature/label lists are built column by column: the names for a concatenation of columns are the two lists concatenated, in column order |
| Frames.TierNamesMembership | dash_app/preprocessing_viz/matrix_viewer.py:91-92 | a name is among the features (labels) iff some column of tier `sample` (`metadata`) has that name |
| Frames.HasTierIffNames | dash_app/preprocessing_viz/matrix_viewer.py:91-92 | looking up a tier raises (no column carries it) exactly when its name list would be empty |
| Frames.TiersDisjoint | dash_app/preprocessing_viz/matrix_viewer.py:90-106 | when the tier-dropped column names are unique, a name listed under `sample` is not listed under `metadata` |
| Frames.TierPartition | dash_app/preprocessing_viz/matrix_viewer.py:90-92 | when every tier is `sample` or `metadata`, the numbers of features and labels add up to the number of columns |
| Frames.DropTier | dash_app/preprocessing_viz/matrix_viewer.py:90 | dropping the tier level keeps the index, the number of columns, and each column's name and cells, in order |
| Frames.SelectedCells | dash_app/preprocessing_viz/matrix_viewer.py:117 | a cell is in `processed_table[features]` iff it is a cell of a column whose name is one of the features |
| Frames.SelectedCellsMembership | dash_app/preprocessing_viz/matrix_viewer.py:117 | a cell is in `processed_table[features]` iff it belongs to a column whose name is one of the features |
| Frames.SelectedCellsSameNames | dash_app/preprocessing_viz/matrix_viewer.py:117 | selecting by two feature lists with the same members gives the same cells |
| Frames.FeatureCellsCoverSamples | dash_app/preprocessing_viz/matrix_viewer.py:90-117 | every cell of every `sample` column is among the cells the metrics are taken over, even when column names repeat |
| Frames.FeatureCellsAreSampleCells | dash_app/preprocessing_viz/matrix_viewer.py:90-117 | when no two columns share a name, the cells the metrics are taken over are exactly the cells of the `sample` columns |
| Frames.SampleCellsWithinMetrics | dash_app/preprocessing_viz/matrix_viewer.py:117-120 | whenever metrics are reported, every cell of every `sample` column is a number between the reported min and max |
| Frames.MetricsFromSampleCells | dash_app/preprocessing_viz/matrix_viewer.py:117-120 | when no two columns share a name, the reported min and max are cells of `sample` columns |
| Frames.MinOf | dash_app/preprocessing_viz/matrix_viewer.py:119 | the minimum is one of the values and no value is below it |
| Frames.MaxOf | dash_app/preprocessing_viz/matrix_viewer.py:120 | the maximum is one of the values and no value is above it |
| Frames.ComputeMetrics | dash_app/preprocessing_viz/matrix_viewer.py:117-120 | fails with EmptyMatrix iff there are no feature cells, and with NonNumericCell iff a feature cell is text; otherwise min and max are feature cells and bound every feature cell |
| Frames.MetricsOrdered | dash_app/preprocessing_viz/matrix_viewer.py:119-120 | whenever metrics are reported, min ≤ max |
| Frames.MetricsPermutationInvariant | dash_app/preprocessing_viz/matrix_viewer.py:117-120 | tables whose feature cells form the same multiset (rows or columns permuted) report the same result |
| Frames.MetricsIgnoreFeatureOrder | dash_app/preprocessing_viz/matrix_viewer.py:117 | listing the features in another order or with repeats reports the same result |
| Viewer.Session.constructor | dash_app/preprocessing_viz/matrix_viewer.py:41 | the page starts with the layout's styles and click counter, an empty stored table, no options, no selection, no metrics and no figures |
| Viewer.Session.DisplayUploadFilename | dash_app/preprocessing_viz/matrix_viewer.py:49-54 | with no filename nothing is published; otherwise the filename is echoed and only `background-color` of the upload style changes; a None style raises and publishes nothing |
| Viewer.Session.ParseRawTable | dash_app/preprocessing_viz/matrix_viewer.py:73-126 | n_clicks None publishes nothing. A decode failure, a missing `sample` or `metadata` tier, a repeated row id or column name (refused by `to_json`), or failing metrics raises and publishes nothing. Otherwise it publishes together: the tier-dropped table; the `sample` names as the selection; the options mirroring them; the label options; the metrics over the features; the bumped counter (so the colour bar is rebuilt); and the parse style (`{}` if None) marked ready |
| Viewer.Session.GenerateColormap | dash_app/preprocessing_viz/matrix_viewer.py:130-142 | the colour bar is the one built from the current bounds and palette |
| Viewer.Session.SelectFeatures | dash_app/preprocessing_viz/matrix_viewer.py:151 | the user's checklist choice, drawn from the offered options, becomes the selection that render reads |
| Viewer.Session.GenerateClustergram | dash_app/preprocessing_viz/matrix_viewer.py:165-205 | the library calls are, in order: the colour map; the bait leaves only if `'bait_clust'` is checked; the prey leaves; then `dendro_heatmap`, which gets the bait leaves and `bait_clust` = true iff `'bait_clust'` is checked (None and false otherwise). These calls happen even when the tick checklist is None and the callback then raises. The x/y tick flags are membership of `'sample_ticks'`/`'obs_ticks'`. The render style is marked ready. A None style or checklist raises and publishes nothing |
| Scenarios.SmallTableTiers | dash_app/preprocessing_viz/matrix_viewer.py:91-92 | a table with sample columns s1, s2 and metadata column gene has features [s1, s2] and labels [gene] |
| Scenarios.SmallTableFeatureCells | dash_app/preprocessing_viz/matrix_viewer.py:117 | for that table, the matrix the metrics read is the six cells of s1 and s2, and none of gene's |
| Scenarios.SmallTableMetrics | dash_app/preprocessing_viz/matrix_viewer.py:119-120 | for that table, min is 1 and max is 7 |
| Scenarios.SmallTableUnique | dash_app/preprocessing_viz/matrix_viewer.py:106 | that table's row ids and column names are all different |
| Scenarios.SmallTableParses | dash_app/preprocessing_viz/matrix_viewer.py:90-120 | that table parses without raising |
| Scenarios.RepeatedNameRaises | dash_app/preprocessing_viz/matrix_viewer.py:106 | a `sample` column and a `metadata` column with the same name make `to_json` raise, so the metadata cell is never reported as the minimum |
| Scenarios.RepeatedRowRaises | dash_app/preprocessing_viz/matrix_viewer.py:106 | two rows with the same id make `to_json` raise, so the table does not parse |

## Left out

- Decoding the upload (`content.split(',')`, base64, UTF-8, `pd.read_csv` with a two-row header, lines 82-86): the parse method takes the result as a `Result<RawTable>`, and any failure there is a `Raised` outcome. How `read_csv` renames a repeated (tier, name) header pair is part of that step.
- The JSON text that `to_json` writes and `pd.read_json` reads back (lines 106, 173): only `to_json`'s refusal of repeated row ids or column names is modelled. The session stores the table value itself, so the round trip is taken as lossless.
- Mean, standard deviation and rounding to two decimals (lines 118-123): these are floating-point work. Only the exact min and max are modelled, over `real` numbers; NaN cells are not modelled.
- The algorithms of `ph.color_map`, `ph.bait_leaves`, `ph.prey_leaves` and `ph.dendro_heatmap`: their results are symbolic terms of their arguments.
- `go.Layout`/`go.Figure` (lines 199-203): the figure is the heatmap term plus the two tick-label flags that the layout would receive.
- App setup, the page layout from `create_layout`, and `run_server` (lines 35-41, 214-215). The constructor takes four initial values as parameters: the upload, parse and render button styles and the colour button's click counter. The other initial values are assumed, because the layout is not part of this model: no upload text, an empty stored table, empty checklist options and selection, no label options, and no metrics, colour bar or figure. Render before any parse depends on these assumptions: if the layout left the `processed_table` children unset, `pd.read_json` at line 173 would raise.
- Frames.ComputeMetrics: takes the selected columns in table order, where pandas orders them as listed in `features`. Frames.MetricsPermutationInvariant shows that min and max do not depend on that order.
- Viewer.Session.GenerateClustergram: takes the colour bounds as numbers. A None bound, which would be passed to the library as is, is not modelled.
- Viewer.Session.GenerateColormap: takes the colour bounds as numbers, like the render. A None `colorscale_min` or `colorscale_max`, which would go to `ph.color_map` as is (for example when the page loads), is not modelled.
- Viewer.Session.GenerateClustergram: takes the label column as a string. The label dropdown's value is None while nothing is chosen; that None would be passed to `ph.dendro_heatmap` as is, and is not modelled.
- Viewer.Session.GenerateClustergram: assumes the `ph.*` calls never raise, so with a style and both checklists present it always publishes. A failure inside the library, for example on an empty table or an empty feature list, is not modelled.
- Viewer.Session.GenerateColormap: assumes `ph.color_map` never raises, so it always publishes a colour bar.
- Viewer.Session.SelectFeatures: requires the selection to come from the checklist's options, as the checklist widget offers no others. Nothing in the callbacks checks this.
- Dash's own trigger mechanism is not modelled. The parse contract shows that the colour counter always changes, which is what makes Dash run `generate_colormap` again; the re-run itself is not modelled.

## How the callbacks behave

- The metrics are computed only in the parse step, over all `sample` columns (line 117). Changing the feature selection later does not recompute them.
- Render checks neither for a prior parse nor for a non-empty selection. It runs on whatever table and selection are stored. `Scenarios.RenderBeforeParse` shows this for the empty table the model assumes at start.
- Tiers other than `sample` and `metadata` are not rejected. Such columns are neither features nor labels, but they stay in the stored table.
- A missing `sample` or `metadata` tier makes the pandas lookup raise (lines 91-92). The parse then publishes nothing.
- A repeated row id or a repeated column name after the tier is dropped makes `to_json` raise (line 106), before the metrics are taken. So a table that parses has its metrics taken over the `sample` columns' cells and no others.
- A text cell among the feature cells makes the parse raise. With numbers and text mixed, `min` raises (line 119). With text only, `min` and `max` compare the strings, but `mean` then raises (line 121). Either way nothing is published, which is the model's `NonNumericCell` outcome.
- Every successful parse increments the colour button's click counter. Dash then runs `generate_colormap` again.
- The upload and render callbacks index their style without a None check, so a None style raises. Only the parse callback replaces a None style with `{}`.
