/**
 * The traces of the figure and the two selector menus (plotly_csv_smb.py
 * lines 77-128). Plotly's figure object is not modelled: a trace is the data the
 * script hands to go.Scattergl, and a button is its label, visibility vector and title.
 */
module Traces {
  import opened Grid
  import opened Timestamps

  /** One go.Scattergl trace: its date, its column, its legend name, x and y, and whether it is shown. */
  datatype Trace = Trace(date: string, column: string, name: string, x: seq<int>, y: seq<string>, visible: bool)

  /** One dropdown button: its label (caption), args[0]["visible"] and args[1]["title"]. */
  datatype Button = Button(caption: string, visible: seq<bool>, title: string)

  /** Every row of the frame has a cell for column col. */
  ghost predicate HasColumn(f: Frame, col: string)
  {
    forall i :: 0 <= i < |f.points| ==> col in f.points[i].row
  }

  /** df["Timestamp"] */
  function Times(f: Frame): (x: seq<int>)
    ensures |x| == |f.points| && forall i :: 0 <= i < |x| ==> x[i] == f.points[i].time
  {
    seq(|f.points|, i requires 0 <= i < |f.points| => f.points[i].time)
  }

  /** df[col] */
  function Values(f: Frame, col: string): (y: seq<string>)
    requires HasColumn(f, col)
    ensures |y| == |f.points| && forall i :: 0 <= i < |y| ==> y[i] == f.points[i].row[col]
  {
    seq(|f.points|, i requires 0 <= i < |f.points| => f.points[i].row[col])
  }

  /** The hidden trace of column col of the frame of date (lines 80-91). */
  function Plot(date: string, col: string, f: Frame): (t: Trace)
    requires HasColumn(f, col)
    ensures t.date == date && t.column == col && !t.visible
    ensures t.name == date + " - " + col
    ensures |t.x| == |f.points| && |t.y| == |f.points|
    ensures forall i :: 0 <= i < |f.points| ==> t.x[i] == f.points[i].time && t.y[i] == f.points[i].row[col]
  {
    Trace(date, col, date + " - " + col, Times(f), Values(f, col), false)
  }

  /** Lines 77-95: one trace per (date, column), date-major, then trace 0 is shown. */
  method BuildTraces(dates: seq<string>, frames: map<string, Frame>, cols: seq<string>) returns (traces: seq<Trace>)
    requires forall d :: 0 <= d < |dates| ==> dates[d] in frames
    requires forall d, c :: 0 <= d < |dates| && 0 <= c < |cols| ==> HasColumn(frames[dates[d]], cols[c])
    ensures |traces| == |dates| * |cols|
    ensures forall d, c :: 0 <= d < |dates| && 0 <= c < |cols| ==>
      && TraceIndex(d, c, |cols|) < |traces|
      && traces[TraceIndex(d, c, |cols|)]
         == Plot(dates[d], cols[c], frames[dates[d]]).(visible := TraceIndex(d, c, |cols|) == 0)
    ensures forall k :: 0 <= k < |traces| ==> traces[k].visible == InitialMask(|traces|)[k]
  {
    var C := |cols|;
    traces := [];
    for d := 0 to |dates|
      invariant |traces| == d * C
      invariant forall k :: 0 <= k < |traces| ==> !traces[k].visible
      invariant forall d', c :: 0 <= d' < d && 0 <= c < C ==>
        TraceIndex(d', c, C) < |traces| && traces[TraceIndex(d', c, C)] == Plot(dates[d'], cols[c], frames[dates[d']])
    {
      var df := frames[dates[d]];
      for c := 0 to C
        invariant |traces| == d * C + c
        invariant forall k :: 0 <= k < |traces| ==> !traces[k].visible
        invariant forall d', c' :: 0 <= d' < d && 0 <= c' < C ==>
          TraceIndex(d', c', C) < |traces| && traces[TraceIndex(d', c', C)] == Plot(dates[d'], cols[c'], frames[dates[d']])
        invariant forall c' :: 0 <= c' < c ==>
          TraceIndex(d, c', C) < |traces| && traces[TraceIndex(d, c', C)] == Plot(dates[d], cols[c'], df)
      {
        traces := traces + [Plot(dates[d], cols[c], df)];
      }
      assert (d + 1) * C == d * C + C;
    }
    if |traces| > 0 {
      traces := traces[0 := traces[0].(visible := true)];
    }
  }

  /** Lines 102-105: visibility of date button d, written into a vector of N*C entries. */
  method DateVisibility(N: nat, C: nat, d: nat) returns (vis: seq<bool>)
    requires d < N
    ensures vis == DateMask(N, C, d)
  {
    var visibility := new bool[N * C](_ => false);
    for c := 0 to C
      invariant forall k :: 0 <= k < visibility.Length ==> visibility[k] == (d * C <= k < d * C + c)
    {
      IndexInRange(d, c, N, C);
      visibility[TraceIndex(d, c, C)] := true;
    }
    vis := visibility[..];
  }

  /** A trace of column c below (d + 1)*C is below d*C or is trace d*C + c. */
  lemma ColumnStep(k: nat, N: nat, C: nat, d: nat, c: nat)
    requires d < N && c < C && k < N * C && InColumn(k, c, C)
    ensures k < (d + 1) * C <==> k < d * C || k == TraceIndex(d, c, C)
  {
    assert (d + 1) * C == d * C + C;
    InDateBlock(k, N, C, d);
    IndexCover(k, N, C);
  }

  /** Lines 118-122: visibility of column button c, written into a vector of N*C entries. */
  method ColumnVisibility(N: nat, C: nat, c: nat) returns (vis: seq<bool>)
    requires c < C
    ensures vis == ColumnMask(N, C, c)
  {
    var visibility := new bool[N * C](_ => false);
    for d := 0 to N
      invariant forall k :: 0 <= k < visibility.Length ==> visibility[k] == (InColumn(k, c, C) && k < d * C)
    {
      IndexInRange(d, c, N, C);
      InColumnAt(d, c, C, c);
      forall k | 0 <= k < visibility.Length && InColumn(k, c, C) ensures k < (d + 1) * C <==> k < d * C || k == TraceIndex(d, c, C) {
        ColumnStep(k, N, C, d, c);
      }
      visibility[TraceIndex(d, c, C)] := true;
    }
    vis := visibility[..];
  }

  /** The title a date button sets: the viewer caption, the date, then the folder in parentheses. */
  function DateTitle(date: string, folder: string): (r: string)
    ensures |r| == 14 + |date| + 2 + |folder| + 1
    ensures r[..14] == "Data Viewer - " && r[14..14 + |date|] == date
    ensures r[14 + |date|..16 + |date|] == " (" && r[16 + |date|..|r| - 1] == folder && r[|r| - 1] == ')'
  {
    "Data Viewer - " + date + " (" + folder + ")"
  }

  /** The title a column button sets: the viewer caption, the column, then "(all dates)". */
  function ColumnTitle(col: string): (r: string)
    ensures |r| == 14 + |col| + 12
    ensures r[..14] == "Data Viewer - " && r[14..14 + |col|] == col && r[14 + |col|..] == " (all dates)"
  {
    "Data Viewer - " + col + " (all dates)"
  }

  /** Lines 99-112: one button per date, counted by date_idx. */
  method DateButtons(dates: seq<string>, C: nat, folder: string) returns (buttons: seq<Button>)
    ensures |buttons| == |dates|
    ensures forall d :: 0 <= d < |dates| ==>
      buttons[d] == Button(dates[d], DateMask(|dates|, C, d), DateTitle(dates[d], folder))
  {
    buttons := [];
    var dateIdx := 0;
    while dateIdx < |dates|
      invariant dateIdx <= |dates| && |buttons| == dateIdx
      invariant forall d :: 0 <= d < dateIdx ==>
        buttons[d] == Button(dates[d], DateMask(|dates|, C, d), DateTitle(dates[d], folder))
    {
      var visibility := DateVisibility(|dates|, C, dateIdx);
      buttons := buttons + [Button(dates[dateIdx], visibility, DateTitle(dates[dateIdx], folder))];
      dateIdx := dateIdx + 1;
    }
  }

  /** Lines 115-128: one button per column. */
  method ColumnButtons(cols: seq<string>, N: nat) returns (buttons: seq<Button>)
    ensures |buttons| == |cols|
    ensures forall c :: 0 <= c < |cols| ==>
      buttons[c] == Button(cols[c], ColumnMask(N, |cols|, c), ColumnTitle(cols[c]))
  {
    buttons := [];
    for c := 0 to |cols|
      invariant |buttons| == c
      invariant forall c' :: 0 <= c' < c ==>
        buttons[c'] == Button(cols[c'], ColumnMask(N, |cols|, c'), ColumnTitle(cols[c']))
    {
      var visibility := ColumnVisibility(N, |cols|, c);
      buttons := buttons + [Button(cols[c], visibility, ColumnTitle(cols[c]))];
    }
  }

}
