/**
 * The whole script from the listing to the chart data (plotly_csv_smb.py lines
 * 17-128), with the NAS listing, the NAS reads and the date-time parser as inputs.
 */
module Pipeline {
  import opened Wrappers
  import opened Sorting
  import opened Discovery
  import opened OrderedDict
  import opened Tables
  import opened Loading
  import opened Columns
  import opened Timestamps
  import opened Grid
  import opened Traces

  /** What the figure is built from: dates, columns, traces and the two menus. */
  datatype Chart = Chart(dates: seq<string>, columns: seq<string>, traces: seq<Trace>,
                         dateButtons: seq<Button>, columnButtons: seq<Button>)

  /** NoData is the early exit of lines 49-51. */
  datatype Outcome = NoData | Rendered(chart: Chart)

  /** dfs after the load loop. */
  ghost function LoadedDict(listing: seq<string>, load: string -> Option<Table>): Dict<Table>
  {
    Loaded(SortBy(Candidates(listing), FileKey), load)
  }

  /** numeric_cols: the numeric columns of the first table in dfs, "Power" first. */
  ghost function ChosenColumns(dfs: Dict<Table>): seq<string>
    requires Valid(dfs) && dfs.keys != []
  {
    Prioritized(NumericColumns(dfs.values[dfs.keys[0]]))
  }

  /**
   * Every loaded table has every chosen column. The script does not check this:
   * a missing column makes df[col] raise at line 83.
   */
  ghost predicate SchemaHolds(listing: seq<string>, load: string -> Option<Table>)
  {
    var dfs := LoadedDict(listing, load);
    dfs.keys != [] ==>
      forall k, c :: k in dfs.values && c in ChosenColumns(dfs) ==> c in dfs.values[k].columns
  }

  /** What the script builds from dfs (lines 54-128), stated trace by trace and button by button. */
  ghost predicate ChartOf(chart: Chart, dfs: Dict<Table>, parse: string -> Option<int>, folder: string)
  {
    var N, C := |chart.dates|, |chart.columns|;
    && Valid(dfs) && dfs.keys != []
    && (forall k :: k in dfs.values ==> Rectangular(dfs.values[k]))
    && chart.dates == dfs.keys
    && chart.columns == ChosenColumns(dfs)
    && |chart.traces| == N * C
    && (forall d, c :: 0 <= d < N && 0 <= c < C ==>
          && TraceIndex(d, c, C) < |chart.traces|
          && HasColumn(Normalize(dfs.values[chart.dates[d]], parse), chart.columns[c])
          && chart.traces[TraceIndex(d, c, C)]
             == Plot(chart.dates[d], chart.columns[c], Normalize(dfs.values[chart.dates[d]], parse))
                  .(visible := TraceIndex(d, c, C) == 0))
    && (forall k :: 0 <= k < |chart.traces| ==> chart.traces[k].visible == (k == 0))
    && |chart.dateButtons| == N
    && (forall d :: 0 <= d < N ==>
          chart.dateButtons[d] == Button(chart.dates[d], DateMask(N, C, d), DateTitle(chart.dates[d], folder)))
    && |chart.columnButtons| == C
    && (forall c :: 0 <= c < C ==>
          chart.columnButtons[c] == Button(chart.columns[c], ColumnMask(N, C, c), ColumnTitle(chart.columns[c])))
  }

  /** Lines 54-128, once dfs is known to be non-empty. */
  method Render(folder: string, dfs: Dict<Table>, parse: string -> Option<int>) returns (chart: Chart)
    requires Valid(dfs) && dfs.keys != []
    requires forall k :: k in dfs.values ==> Rectangular(dfs.values[k])
    requires forall k, c :: k in dfs.values && c in ChosenColumns(dfs) ==> c in dfs.values[k].columns
    ensures ChartOf(chart, dfs, parse, folder)
  {
    var sample := dfs.values[dfs.keys[0]];
    var numericCols := NumericColumns(sample);
    var cols := PrioritizePower(numericCols);
    var processed := NormalizeAll(dfs, parse);
    assert cols == ChosenColumns(dfs);
    ColumnsCovered(dfs, parse, cols);
    forall d, c | 0 <= d < |processed.keys| && 0 <= c < |cols|
      ensures processed.keys[d] in processed.values && HasColumn(processed.values[processed.keys[d]], cols[c])
    {
      assert processed.keys[d] in dfs.values && cols[c] in cols;
    }
    var traces := BuildTraces(processed.keys, processed.values, cols);
    var dateButtons := DateButtons(processed.keys, |cols|, folder);
    var columnButtons := ColumnButtons(cols, |processed.keys|);
    chart := Chart(processed.keys, cols, traces, dateButtons, columnButtons);
    assert chart.dates == dfs.keys && chart.columns == ChosenColumns(dfs);
    assert forall d :: 0 <= d < |chart.dates| ==>
      processed.values[chart.dates[d]] == Normalize(dfs.values[chart.dates[d]], parse);
  }

  /** Every processed frame has a cell for every chosen column in every row. */
  lemma ColumnsCovered(dfs: Dict<Table>, parse: string -> Option<int>, cols: seq<string>)
    requires forall k :: k in dfs.values ==> Rectangular(dfs.values[k])
    requires forall k, c :: k in dfs.values && c in cols ==> c in dfs.values[k].columns
    ensures forall k, c :: k in dfs.values && c in cols ==> HasColumn(Normalize(dfs.values[k], parse), c)
  {
    forall k, c | k in dfs.values && c in cols ensures HasColumn(Normalize(dfs.values[k], parse), c) {
      NormalizeSorted(dfs.values[k], parse);
    }
  }

  /** Lines 17-128: discover, load, stop when nothing loaded, otherwise build the chart. */
  method Run(folder: string, listing: seq<string>, load: string -> Option<Table>, parse: string -> Option<int>)
    returns (out: Outcome)
    requires forall f :: load(f).Some? ==> Rectangular(load(f).value)
    requires SchemaHolds(listing, load)
    ensures out.NoData? <==> forall e :: e in Candidates(listing) ==> load(e.path).None?
    ensures out.Rendered? ==> ChartOf(out.chart, LoadedDict(listing, load), parse, folder)
  {
    var dated := Discover(listing);
    var dfs := LoadAll(dated, load);
    LoadedEmpty(dated, load);
    forall e ensures e in Candidates(listing) <==> e in dated {
      assert e in Candidates(listing) <==> e in multiset(Candidates(listing));
      assert e in dated <==> e in multiset(dated);
    }
    if dfs.keys == [] {
      return NoData;
    }
    TablesRectangular(dated, load);
    var chart := Render(folder, dfs, parse);
    out := Rendered(chart);
  }

  /** Every table in dfs is one the loader returned, so it is rectangular. */
  lemma TablesRectangular(files: seq<DatedFile>, load: string -> Option<Table>)
    requires forall f :: load(f).Some? ==> Rectangular(load(f).value)
    ensures forall k :: k in Loaded(files, load).values ==> Rectangular(Loaded(files, load).values[k])
  {
    LoadedContents(files, load);
    forall k | k in Loaded(files, load).values ensures Rectangular(Loaded(files, load).values[k]) {
      LastLoadedFrom(files, load, k);
    }
  }

}
