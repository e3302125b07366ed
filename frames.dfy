/** The uploaded table and what the parse step derives from it: the split of
    the columns by their level-0 header into features (`sample`) and labels
    (`metadata`), the table with the level-0 header dropped, and the exact
    minimum and maximum over the feature cells. */
module Frames {
  import opened Ui

  /** A cell as read from the delimited text. */
  datatype Cell = Num(value: real) | Text(text: string)

  /** A column under the two-row header: row 0 gives its tier, row 1 its name. */
  datatype Column = Column(tier: string, name: string, cells: seq<Cell>)

  /** The table as read with `header=[0,1], index_col=0`. */
  datatype RawTable = RawTable(index: seq<string>, columns: seq<Column>)

  /** A column once the tier level is dropped. */
  datatype Series = Series(name: string, cells: seq<Cell>)

  /** The processed table: one header level, the same index. */
  datatype Frame = Frame(index: seq<string>, columns: seq<Series>)

  const SampleTier: string := "sample"
  const MetadataTier: string := "metadata"

  /** `raw_table[tier]` succeeds exactly when some column carries that tier. */
  predicate HasTier(cols: seq<Column>, tier: string)
  {
    exists i :: 0 <= i < |cols| && cols[i].tier == tier
  }

  /** `list(raw_table[tier])`: the names of the columns of that tier, in column order. */
  function TierNames(cols: seq<Column>, tier: string): (r: seq<string>)
    ensures |r| <= |cols|
    ensures forall n :: n in r <==> exists c :: c in cols && c.tier == tier && c.name == n
  {
    if cols == [] then []
    else
      var rest := TierNames(cols[1..], tier);
      assert cols == [cols[0]] + cols[1..];
      (if cols[0].tier == tier then [cols[0].name] else []) + rest
  }

  /** The tier split works column by column, so it keeps column order across a concatenation. */
  lemma {:induction false} TierNamesAppend(a: seq<Column>, b: seq<Column>, tier: string)
    ensures TierNames(a + b, tier) == TierNames(a, tier) + TierNames(b, tier)
  {
    if a == [] {
      assert a + b == b;
    } else {
      assert (a + b)[1..] == a[1..] + b;
      TierNamesAppend(a[1..], b, tier);
    }
  }

  /** A name is listed under a tier exactly when some column of that tier has that name. */
  lemma TierNamesMembership(cols: seq<Column>, tier: string, name: string)
    ensures name in TierNames(cols, tier)
        <==> exists i :: 0 <= i < |cols| && cols[i].tier == tier && cols[i].name == name
  {
    // the index form of `TierNames`'s own membership clause
    if name in TierNames(cols, tier) {
      var c :| c in cols && c.tier == tier && c.name == name;
      var i :| 0 <= i < |cols| && cols[i] == c;
    }
  }

  /** The lookup `raw_table[tier]` raises exactly when it would list no name. */
  lemma HasTierIffNames(cols: seq<Column>, tier: string)
    ensures HasTier(cols, tier) <==> TierNames(cols, tier) != []
  {
    if HasTier(cols, tier) {
      var i :| 0 <= i < |cols| && cols[i].tier == tier;
      TierNamesMembership(cols, tier, cols[i].name);
    } else if TierNames(cols, tier) != [] {
      TierNamesMembership(cols, tier, TierNames(cols, tier)[0]);
    }
  }

  /** When every column is a sample or a metadata column, features and
      labels between them account for every column exactly once. */
  lemma {:induction false} TierPartition(cols: seq<Column>)
    requires forall i :: 0 <= i < |cols| ==> cols[i].tier == SampleTier || cols[i].tier == MetadataTier
    ensures |TierNames(cols, SampleTier)| + |TierNames(cols, MetadataTier)| == |cols|
  {
    if cols != [] {
      assert forall i :: 0 <= i < |cols| - 1 ==> cols[1..][i] == cols[i + 1];
      TierPartition(cols[1..]);
    }
  }

  /** `raw_table.droplevel(level=0, axis=1)`. */
  function DropTier(t: RawTable): (f: Frame)
    ensures f.index == t.index && |f.columns| == |t.columns|
    ensures forall i :: 0 <= i < |t.columns| ==> f.columns[i].name == t.columns[i].name
    ensures forall i :: 0 <= i < |t.columns| ==> f.columns[i].cells == t.columns[i].cells
  {
    Frame(t.index, seq(|t.columns|, i requires 0 <= i < |t.columns| =>
      Series(t.columns[i].name, t.columns[i].cells)))
  }

  /** The cells of `processed_table[features]`: every cell of every column
      whose name is one of the features (pandas selects by name). */
  function SelectedCells(cols: seq<Series>, features: seq<string>): (r: seq<Cell>)
    ensures forall c :: c in r <==> exists s :: s in cols && s.name in features && c in s.cells
  {
    if cols == [] then []
    else
      var rest := SelectedCells(cols[1..], features);
      assert cols == [cols[0]] + cols[1..];
      (if cols[0].name in features then cols[0].cells else []) + rest
  }

  /** Every cell of every selected column, and nothing else, is in the selection. */
  lemma SelectedCellsMembership(cols: seq<Series>, features: seq<string>, c: Cell)
    ensures c in SelectedCells(cols, features)
        <==> exists i :: 0 <= i < |cols| && cols[i].name in features && c in cols[i].cells
  {
    // the index form of `SelectedCells`'s own membership clause
    if c in SelectedCells(cols, features) {
      var col :| col in cols && col.name in features && c in col.cells;
      var i :| 0 <= i < |cols| && cols[i] == col;
    }
  }

  /** Only the set of selected names matters, not their order or repetition. */
  lemma {:induction false} SelectedCellsSameNames(cols: seq<Series>, f1: seq<string>, f2: seq<string>)
    requires forall x :: x in f1 <==> x in f2
    ensures SelectedCells(cols, f1) == SelectedCells(cols, f2)
  {
    if cols != [] {
      SelectedCellsSameNames(cols[1..], f1, f2);
    }
  }

  predicate AllNumeric(cells: seq<Cell>)
  {
    forall i :: 0 <= i < |cells| ==> cells[i].Num?
  }

  /** `matrix.values` of a numeric matrix, flattened. */
  function Reals(cells: seq<Cell>): (r: seq<real>)
    requires AllNumeric(cells)
    ensures |r| == |cells|
    ensures forall i :: 0 <= i < |cells| ==> Num(r[i]) == cells[i]
  {
    seq(|cells|, i requires 0 <= i < |cells| => cells[i].value)
  }

  /** `min()` of a non-empty sequence of numbers. */
  function MinOf(s: seq<real>): (m: real)
    requires |s| > 0
    ensures m in s
    ensures forall x :: x in s ==> m <= x
  {
    if |s| == 1 then s[0]
    else
      var rest := MinOf(s[1..]);
      assert s == [s[0]] + s[1..];
      if s[0] <= rest then s[0] else rest
  }

  /** `max()` of a non-empty sequence of numbers. */
  function MaxOf(s: seq<real>): (m: real)
    requires |s| > 0
    ensures m in s
    ensures forall x :: x in s ==> x <= m
  {
    if |s| == 1 then s[0]
    else
      var rest := MaxOf(s[1..]);
      assert s == [s[0]] + s[1..];
      if s[0] >= rest then s[0] else rest
  }

  /** The exact part of the `data_metrics` table. */
  datatype Metrics = Metrics(min: real, max: real)

  /** The min and max the parse step reports for `processed_table[features]`. */
  function ComputeMetrics(f: Frame, features: seq<string>): (r: Result<Metrics>)
    ensures var cells := SelectedCells(f.columns, features);
      && (r == Err(EmptyMatrix) <==> |cells| == 0)
      && (r == Err(NonNumericCell) <==> |cells| > 0 && !AllNumeric(cells))
      && (r.Ok? <==> |cells| > 0 && AllNumeric(cells))
      && (r.Ok? ==> Num(r.value.min) in cells && Num(r.value.max) in cells)
      && (r.Ok? ==> forall c :: c in cells ==> c.Num? && r.value.min <= c.value <= r.value.max)
  {
    var cells := SelectedCells(f.columns, features);
    if |cells| == 0 then Err(EmptyMatrix)
    else if !AllNumeric(cells) then Err(NonNumericCell)
    else
      var xs := Reals(cells);
      assert forall c :: c in cells ==> c.value in xs by {
        forall c | c in cells ensures c.value in xs {
          var i :| 0 <= i < |cells| && cells[i] == c;
          assert xs[i] == c.value;
        }
      }
      Ok(Metrics(MinOf(xs), MaxOf(xs)))
  }

  /** Whenever metrics are reported, the minimum does not exceed the maximum. */
  lemma MetricsOrdered(f: Frame, features: seq<string>)
    ensures ComputeMetrics(f, features).Ok? ==>
      ComputeMetrics(f, features).value.min <= ComputeMetrics(f, features).value.max
  {
    var cells := SelectedCells(f.columns, features);
    if ComputeMetrics(f, features).Ok? {
      assert cells[0] in cells;
    }
  }

  /** A number that is in the sequence and below every element is its minimum. */
  lemma MinOfUnique(s: seq<real>, m: real)
    requires m in s && forall x :: x in s ==> m <= x
    ensures MinOf(s) == m
  {
  }

  /** A number that is in the sequence and above every element is its maximum. */
  lemma MaxOfUnique(s: seq<real>, m: real)
    requires m in s && forall x :: x in s ==> x <= m
    ensures MaxOf(s) == m
  {
  }

  /** The metrics depend only on the multiset of selected cells: permuting the
      rows of the table, or its columns, reports the same min and max. */
  lemma MetricsPermutationInvariant(f: Frame, g: Frame, features: seq<string>)
    requires multiset(SelectedCells(f.columns, features)) == multiset(SelectedCells(g.columns, features))
    ensures ComputeMetrics(f, features) == ComputeMetrics(g, features)
  {
    var a, b := SelectedCells(f.columns, features), SelectedCells(g.columns, features);
    assert |a| == |multiset(a)| == |multiset(b)| == |b|;
    assert forall c :: c in a <==> c in b by {
      forall c ensures c in a <==> c in b {
        assert c in a <==> c in multiset(a);
        assert c in b <==> c in multiset(b);
      }
    }
    if |a| > 0 && AllNumeric(a) {
      assert AllNumeric(b) by {
        forall i | 0 <= i < |b| ensures b[i].Num? {
          assert b[i] in a;
        }
      }
      var ra, rb := Reals(a), Reals(b);
      assert forall x :: x in ra <==> x in rb by {
        forall x ensures x in ra <==> x in rb {
          if x in ra {
            var i :| 0 <= i < |ra| && ra[i] == x;
            assert Num(x) in b;
            var j :| 0 <= j < |b| && b[j] == Num(x);
            assert rb[j] == x;
          }
          if x in rb {
            var j :| 0 <= j < |rb| && rb[j] == x;
            assert Num(x) in a;
            var i :| 0 <= i < |a| && a[i] == Num(x);
            assert ra[i] == x;
          }
        }
      }
      MinOfUnique(rb, MinOf(ra));
      MaxOfUnique(rb, MaxOf(ra));
    } else if |a| > 0 {
      var i :| 0 <= i < |a| && !a[i].Num?;
      assert a[i] in b;
    }
  }

  /** Listing the same features in another order, or twice, reports the same metrics. */
  lemma MetricsIgnoreFeatureOrder(f: Frame, f1: seq<string>, f2: seq<string>)
    requires forall x :: x in f1 <==> x in f2
    ensures ComputeMetrics(f, f1) == ComputeMetrics(f, f2)
  {
    SelectedCellsSameNames(f.columns, f1, f2);
  }

  /** After the tier is dropped, selecting by the sample names picks every
      sample column's cells, whether or not the column names repeat. */
  lemma {:induction false} FeatureCellsCoverSamples(t: RawTable, i: int, c: Cell)
    requires 0 <= i < |t.columns| && t.columns[i].tier == SampleTier && c in t.columns[i].cells
    ensures c in SelectedCells(DropTier(t).columns, TierNames(t.columns, SampleTier))
  {
    var f := DropTier(t);
    TierNamesMembership(t.columns, SampleTier, t.columns[i].name);
    assert f.columns[i] == Series(t.columns[i].name, t.columns[i].cells);
    SelectedCellsMembership(f.columns, TierNames(t.columns, SampleTier), c);
  }

  /** The cell is a cell of some sample column of the uploaded table. */
  predicate SampleCell(t: RawTable, c: Cell)
  {
    exists i :: 0 <= i < |t.columns| && t.columns[i].tier == SampleTier && c in t.columns[i].cells
  }

  /** Whenever metrics are reported, every cell of every sample column lies
      between them, whether or not the column names repeat. */
  lemma SampleCellsWithinMetrics(t: RawTable)
    requires ComputeMetrics(DropTier(t), TierNames(t.columns, SampleTier)).Ok?
    ensures var m := ComputeMetrics(DropTier(t), TierNames(t.columns, SampleTier)).value;
      forall c :: SampleCell(t, c) ==> c.Num? && m.min <= c.value <= m.max
  {
    var m := ComputeMetrics(DropTier(t), TierNames(t.columns, SampleTier)).value;
    forall c | SampleCell(t, c)
      ensures c.Num? && m.min <= c.value <= m.max
    {
      var i :| 0 <= i < |t.columns| && t.columns[i].tier == SampleTier && c in t.columns[i].cells;
      FeatureCellsCoverSamples(t, i, c);
    }
  }

  /** No two columns share a name. */
  predicate UniqueNames(cols: seq<Series>)
  {
    forall i, j :: 0 <= i < j < |cols| ==> cols[i].name != cols[j].name
  }

  /** `to_json()`, with its default column orientation, accepts the table only
      when no row label and no column label repeats; otherwise it raises. */
  predicate UniqueAxes(f: Frame)
  {
    && (forall i, j :: 0 <= i < j < |f.index| ==> f.index[i] != f.index[j])
    && UniqueNames(f.columns)
  }

  /** With unique column names, the cells selected by the sample names are
      exactly the cells of the sample columns: no other column is read. */
  lemma FeatureCellsAreSampleCells(t: RawTable, c: Cell)
    requires UniqueNames(DropTier(t).columns)
    ensures c in SelectedCells(DropTier(t).columns, TierNames(t.columns, SampleTier)) <==> SampleCell(t, c)
  {
    var f := DropTier(t);
    var features := TierNames(t.columns, SampleTier);
    if c in SelectedCells(f.columns, features) {
      SelectedCellsMembership(f.columns, features, c);
      var j :| 0 <= j < |f.columns| && f.columns[j].name in features && c in f.columns[j].cells;
      TierNamesMembership(t.columns, SampleTier, f.columns[j].name);
      var k :| 0 <= k < |t.columns| && t.columns[k].tier == SampleTier && t.columns[k].name == f.columns[j].name;
      assert f.columns[k].name == f.columns[j].name;
      assert j == k;
    }
    if SampleCell(t, c) {
      var i :| 0 <= i < |t.columns| && t.columns[i].tier == SampleTier && c in t.columns[i].cells;
      FeatureCellsCoverSamples(t, i, c);
    }
  }

  /** With unique column names, the reported minimum and maximum are cells of
      sample columns. */
  lemma MetricsFromSampleCells(t: RawTable)
    requires UniqueNames(DropTier(t).columns)
    requires ComputeMetrics(DropTier(t), TierNames(t.columns, SampleTier)).Ok?
    ensures var m := ComputeMetrics(DropTier(t), TierNames(t.columns, SampleTier)).value;
      SampleCell(t, Num(m.min)) && SampleCell(t, Num(m.max))
  {
    var m := ComputeMetrics(DropTier(t), TierNames(t.columns, SampleTier)).value;
    FeatureCellsAreSampleCells(t, Num(m.min));
    FeatureCellsAreSampleCells(t, Num(m.max));
  }

  /** With unique column names, no name is listed both under `sample` and under `metadata`. */
  lemma TiersDisjoint(t: RawTable, n: string)
    requires UniqueNames(DropTier(t).columns)
    ensures n in TierNames(t.columns, SampleTier) ==> n !in TierNames(t.columns, MetadataTier)
  {
    if n in TierNames(t.columns, SampleTier) {
      TierNamesMembership(t.columns, SampleTier, n);
      TierNamesMembership(t.columns, MetadataTier, n);
      var i :| 0 <= i < |t.columns| && t.columns[i].tier == SampleTier && t.columns[i].name == n;
      forall j | 0 <= j < |t.columns| && t.columns[j].name == n
        ensures t.columns[j].tier != MetadataTier
      {
        assert DropTier(t).columns[j].name == DropTier(t).columns[i].name;
        assert SampleTier[0] != MetadataTier[0];
      }
    }
  }
}
