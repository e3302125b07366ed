/** A client of the session: what a user sees after uploading a small table,
    parsing it and rendering it, derived from the callbacks' contracts alone. */
module Scenarios {
  import opened Ui
  import opened Frames
  import opened Plotting
  import opened Viewer

  /** Three observations, two sample columns and one metadata column. */
  function SmallTable(): RawTable
  {
    RawTable(["p1", "p2", "p3"], [
      Column(SampleTier, "s1", [Num(1.0), Num(5.0), Num(2.0)]),
      Column(SampleTier, "s2", [Num(3.0), Num(7.0), Num(4.0)]),
      Column(MetadataTier, "gene", [Text("a"), Text("b"), Text("c")])])
  }

  /** The small table splits into two features and one label. */
  lemma SmallTableTiers()
    ensures TierNames(SmallTable().columns, SampleTier) == ["s1", "s2"]
    ensures TierNames(SmallTable().columns, MetadataTier) == ["gene"]
  {
    var cols := SmallTable().columns;
    assert SampleTier != MetadataTier by { assert SampleTier[0] != MetadataTier[0]; }
    assert cols[1..][1..] == [cols[2]] && cols[1..][1..][1..] == [];
    assert TierNames([cols[2]], SampleTier) == [];
    assert TierNames(cols[1..], SampleTier) == ["s2"];
    assert TierNames([cols[2]], MetadataTier) == ["gene"];
    assert TierNames(cols[1..], MetadataTier) == ["gene"];
  }

  /** The metrics are taken over the six cells of the two sample columns. */
  lemma SmallTableFeatureCells()
    ensures SelectedCells(DropTier(SmallTable()).columns, ["s1", "s2"])
         == [Num(1.0), Num(5.0), Num(2.0), Num(3.0), Num(7.0), Num(4.0)]
  {
    var series := DropTier(SmallTable()).columns;
    assert series[1..][1..] == [series[2]] && series[1..][1..][1..] == [];
    assert "gene" !in ["s1", "s2"] by { assert "gene"[0] != "s1"[0] && "gene"[0] != "s2"[0]; }
    assert SelectedCells([series[2]], ["s1", "s2"]) == [];
    assert SelectedCells(series[1..], ["s1", "s2"]) == [Num(3.0), Num(7.0), Num(4.0)];
  }

  /** The small table's feature cells run from 1 to 7. */
  lemma SmallTableMetrics()
    ensures ComputeMetrics(DropTier(SmallTable()), ["s1", "s2"]) == Ok(Metrics(1.0, 7.0))
  {
    var cells := [Num(1.0), Num(5.0), Num(2.0), Num(3.0), Num(7.0), Num(4.0)];
    SmallTableFeatureCells();
    assert AllNumeric(cells);
    var xs := Reals(cells);
    assert xs == [1.0, 5.0, 2.0, 3.0, 7.0, 4.0];
    MinOfUnique(xs, 1.0);
    MaxOfUnique(xs, 7.0);
  }

  /** Parsing the small table does not raise. */
  lemma SmallTableParses()
    ensures ParseOutcome(SmallTable()) == Published
  {
    var raw := SmallTable();
    assert HasTier(raw.columns, SampleTier) by {
      assert raw.columns[0].tier == SampleTier;
    }
    assert HasTier(raw.columns, MetadataTier) by {
      assert raw.columns[2].tier == MetadataTier;
    }
    SmallTableTiers();
    SmallTableMetrics();
    SmallTableUnique();
    assert ComputeMetrics(DropTier(raw), TierNames(raw.columns, SampleTier)).Ok?;
  }

  /** The small table's row ids and column names are all different, so `to_json` accepts it. */
  lemma SmallTableUnique()
    ensures UniqueAxes(DropTier(SmallTable()))
  {
    var f := DropTier(SmallTable());
    assert f.index == ["p1", "p2", "p3"];
    assert "p1"[1] != "p2"[1] && "p1"[1] != "p3"[1] && "p2"[1] != "p3"[1];
    assert f.columns[0].name == "s1" && f.columns[1].name == "s2" && f.columns[2].name == "gene";
    assert "s1"[1] != "s2"[1] && "s1"[0] != "gene"[0] && "s2"[0] != "gene"[0];
  }

  /** A sample and a metadata column with the same name: once the tier is
      dropped the names repeat, so `to_json` raises before any metric is
      taken, and the metadata cell 1 is never reported as the minimum. */
  lemma RepeatedNameRaises()
    ensures ParseOutcome(RawTable(["p1"], [Column(SampleTier, "x", [Num(5.0)]),
                                           Column(MetadataTier, "x", [Num(1.0)])])) == Raised(NonUniqueAxis)
  {
    var raw := RawTable(["p1"], [Column(SampleTier, "x", [Num(5.0)]), Column(MetadataTier, "x", [Num(1.0)])]);
    assert raw.columns[0].tier == SampleTier && raw.columns[1].tier == MetadataTier;
    assert DropTier(raw).columns[0].name == DropTier(raw).columns[1].name;
  }

  /** Two rows with the same id: `to_json` raises, so the table does not parse. */
  lemma RepeatedRowRaises()
    ensures ParseOutcome(RawTable(["p1", "p1"], [Column(SampleTier, "s1", [Num(1.0), Num(2.0)]),
                                                 Column(MetadataTier, "gene", [Text("a"), Text("b")])]))
         == Raised(NonUniqueAxis)
  {
    var raw := RawTable(["p1", "p1"], [Column(SampleTier, "s1", [Num(1.0), Num(2.0)]),
                                       Column(MetadataTier, "gene", [Text("a"), Text("b")])]);
    assert raw.columns[0].tier == SampleTier && raw.columns[1].tier == MetadataTier;
    assert DropTier(raw).index[0] == DropTier(raw).index[1];
  }

  /** Rendering before any parse is not refused: with the stored table taken
      to start empty, it draws the empty table. */
  method RenderBeforeParse()
  {
    var s := new Session(Some(map[]), None, Some(map[]), None);
    var outcome, calls := s.GenerateClustergram("None", 0.0, 1.0, "Viridis", Some([]), Some([]));
    assert outcome == Published;
    assert LeavesCall(Bait, Frame([], []), []) !in calls;
    assert LeavesCall(Prey, Frame([], []), []) in calls;
  }

  /** Choosing a file echoes its name and paints the upload control ready. */
  method Upload()
  {
    var s := new Session(Some(map["border" := "1px"]), None, Some(map[]), None);
    var outcome := s.DisplayUploadFilename(Some("matrix.csv"));
    assert outcome == Published && s.uploadChildren == Some("matrix.csv");
    assert s.uploadStyle == Some(map["border" := "1px", BackgroundColor := ReadyColor]);
  }

  /** Parsing the small table offers its two features and its label,
      selects both features and reports their range. */
  method ParseSmallTable()
  {
    var s := new Session(Some(map[]), None, Some(map[]), None);
    var raw := SmallTable();
    SmallTableTiers();
    SmallTableMetrics();
    SmallTableParses();
    var parsed := s.ParseRawTable(Some(1), Ok(raw));
    assert parsed == Published;
    assert s.featureSelection == ["s1", "s2"];
    assert Values(s.featureOptions) == ["s1", "s2"];
    assert Values(s.labelOptions) == ["None", "gene"];
    assert s.metrics == Some(Metrics(1.0, 7.0));
    assert s.colorClicks == Some(1);
  }

  /** A fresh page on which the small table has been parsed. */
  method ParsedSmallTable() returns (s: Session)
    ensures fresh(s) && s.Valid() && s.renderStyle.Some?
    ensures s.processedTable == DropTier(SmallTable()) && s.featureSelection == ["s1", "s2"]
  {
    s := new Session(Some(map[]), None, Some(map[]), None);
    SmallTableTiers();
    SmallTableParses();
    var parsed := s.ParseRawTable(Some(1), Ok(SmallTable()));
    assert parsed == Published;
  }

  /** The small table parsed and then rendered with bait clustering on the
      same page: the library is asked for the colour map, the bait leaves
      and the prey leaves of the parsed table's two features, and then
      draws the heatmap from them. */
  method ParseThenRender()
  {
    var s := ParsedSmallTable();
    var table, features := DropTier(SmallTable()), ["s1", "s2"];
    var drawn, calls := s.GenerateClustergram("gene", 1.0, 7.0, "Viridis", Some([BaitClustCheck]), Some([]));
    assert drawn == Published;
    assert calls == [ColorMapCall(1.0, 7.0, "Viridis"), LeavesCall(Bait, table, features),
                     LeavesCall(Prey, table, features),
                     DendroHeatmapCall(Drawn(table, features, "gene", 1.0, 7.0, "Viridis", true))];
    assert s.matrixFigure.value.heatmap.baitLeaves == Some(Leaves(Bait, table, features));
    RenderWithoutBait(s);
  }

  /** Rendering without bait clustering hands the heatmap the prey leaves of
      the stored table and the selected features, and never asks for the
      bait leaves. */
  method RenderWithoutBait(s: Session)
    requires s.Valid() && s.renderStyle.Some?
    modifies s
  {
    var table, features := s.processedTable, s.featureSelection;
    var drawn, calls := s.GenerateClustergram("gene", 1.0, 7.0, "Viridis", Some([]), Some([SampleTicksCheck]));
    assert drawn == Published;
    assert LeavesCall(Bait, table, features) !in calls;
    var figure := s.matrixFigure.value;
    assert figure.heatmap.preyLeaves == Leaves(Prey, table, features);
    assert figure.heatmap.baitLeaves == None;
    assert figure.showSampleTicks;
  }
}
