/**
 * Giving every table a time axis (plotly_csv_smb.py lines 63-71). Times are whole
 * seconds since 1970-01-01T00:00:00; the date-time parser of the Timestamp column,
 * pd.to_datetime with errors="coerce", is a parameter that yields None for NaT.
 */
module Timestamps {
  import opened Wrappers
  import opened Sorting
  import opened OrderedDict
  import opened Tables

  const TimestampColumn := "Timestamp"

  /** pd.date_range(start='2025-01-01', ...): 2025-01-01T00:00:00 in seconds. */
  const SynthStart := 1735689600

  /** A row with the time it is plotted at. */
  datatype Stamped = Stamped(time: int, row: Row)

  /** A processed table: its columns and its time-stamped rows. */
  datatype Frame = Frame(columns: seq<string>, points: seq<Stamped>)

  function StampKey(p: Stamped): int
  {
    p.time
  }

  /** pd.to_datetime(..., errors="coerce") then dropna: the rows whose Timestamp cell parses, in row order. */
  function ParsedRows(rows: seq<Row>, parse: string -> Option<int>): (r: seq<Stamped>)
    requires forall i :: 0 <= i < |rows| ==> TimestampColumn in rows[i]
    ensures |r| <= |rows|
    ensures forall p :: p in r <==> p.row in rows && parse(p.row[TimestampColumn]) == Some(p.time)
  {
    if rows == [] then []
    else
      assert forall r :: r in rows <==> r == rows[0] || r in rows[1..];
      var head := parse(rows[0][TimestampColumn]);
      (if head.Some? then [Stamped(head.value, rows[0])] else []) + ParsedRows(rows[1..], parse)
  }

  /** Parsing distributes over concatenation: surviving rows keep their order and multiplicity. */
  lemma {:induction false} ParsedRowsAppend(a: seq<Row>, b: seq<Row>, parse: string -> Option<int>)
    requires forall i :: 0 <= i < |a| ==> TimestampColumn in a[i]
    requires forall i :: 0 <= i < |b| ==> TimestampColumn in b[i]
    ensures forall i :: 0 <= i < |a + b| ==> TimestampColumn in (a + b)[i]
    ensures ParsedRows(a + b, parse) == ParsedRows(a, parse) + ParsedRows(b, parse)
  {
    assert forall i :: 0 <= i < |a + b| ==> (a + b)[i] == if i < |a| then a[i] else b[i - |a|];
    if a == [] {
      assert a + b == b;
    } else {
      assert (a + b)[1..] == a[1..] + b;
      ParsedRowsAppend(a[1..], b, parse);
    }
  }

  /** A single row survives, at its parsed time, iff its Timestamp cell parses. */
  lemma ParsedRowsOne(row: Row, parse: string -> Option<int>)
    requires TimestampColumn in row
    ensures ParsedRows([row], parse)
         == if parse(row[TimestampColumn]).Some? then [Stamped(parse(row[TimestampColumn]).value, row)] else []
  {
    assert [row][1..] == [];
  }

  /** Each parseable row survives as often as it occurs, and no other stamped row survives. */
  lemma {:induction false} ParsedRowsCount(rows: seq<Row>, parse: string -> Option<int>, p: Stamped)
    requires forall i :: 0 <= i < |rows| ==> TimestampColumn in rows[i]
    ensures multiset(ParsedRows(rows, parse))[p]
         == if TimestampColumn in p.row && parse(p.row[TimestampColumn]) == Some(p.time) then multiset(rows)[p.row] else 0
  {
    if rows != [] {
      ParsedRowsCount(rows[1..], parse, p);
      assert rows == [rows[0]] + rows[1..];
    }
  }

  /** A one-second cadence from start, one time per row, rows in their order. */
  function Synthesized(rows: seq<Row>, start: int): (r: seq<Stamped>)
    ensures |r| == |rows|
  {
    seq(|rows|, i requires 0 <= i < |rows| => Stamped(start + i, rows[i]))
  }

  /** The synthesised times strictly increase. */
  lemma SynthesizedIncreasing(rows: seq<Row>, start: int)
    ensures forall i, j :: 0 <= i < j < |rows| ==> Synthesized(rows, start)[i].time < Synthesized(rows, start)[j].time
  {
  }

  /** Every row of the table has a Timestamp cell when the table has that column. */
  lemma TimestampCells(t: Table)
    requires Rectangular(t) && TimestampColumn in t.columns
    ensures forall i :: 0 <= i < |t.rows| ==> TimestampColumn in t.rows[i]
  {
  }

  /** One iteration of the loop of lines 64-71. */
  function Normalize(t: Table, parse: string -> Option<int>): (r: Frame)
    requires Rectangular(t)
    ensures TimestampColumn in r.columns
    ensures t.columns <= r.columns
  {
    if TimestampColumn in t.columns then
      TimestampCells(t);
      Frame(t.columns, SortBy(ParsedRows(t.rows, parse), StampKey))
    else
      Frame(t.columns + [TimestampColumn], Synthesized(t.rows, SynthStart))
  }

  /**
   * The processed rows are in non-decreasing time order and are rows of the
   * loaded table. The synthesised times need no sort: sorting them changes nothing.
   */
  lemma NormalizeSorted(t: Table, parse: string -> Option<int>)
    requires Rectangular(t)
    ensures SortedBy(Normalize(t, parse).points, StampKey)
    ensures forall i :: 0 <= i < |Normalize(t, parse).points| ==> Normalize(t, parse).points[i].row in t.rows
    ensures TimestampColumn !in t.columns ==>
      SortBy(Synthesized(t.rows, SynthStart), StampKey) == Normalize(t, parse).points
  {
    var pts := Normalize(t, parse).points;
    if TimestampColumn in t.columns {
      TimestampCells(t);
      var kept := ParsedRows(t.rows, parse);
      forall i | 0 <= i < |pts| ensures pts[i].row in t.rows {
        assert pts[i] in multiset(kept);
      }
    } else {
      SynthesizedIncreasing(t.rows, SynthStart);
      SortBySorted(pts, StampKey);
    }
  }

  /**
   * With a Timestamp column: exactly the rows whose cell fails to parse are
   * dropped, and the rest come out in non-decreasing time order, each at its
   * parsed time. (The order among equal times is not claimed.)
   */
  lemma NormalizeParsed(t: Table, parse: string -> Option<int>)
    requires Rectangular(t) && TimestampColumn in t.columns
    ensures Normalize(t, parse).columns == t.columns
    ensures multiset(Normalize(t, parse).points) == multiset(ParsedRows(t.rows, parse))
    ensures forall p :: p in Normalize(t, parse).points <==> p.row in t.rows && parse(p.row[TimestampColumn]) == Some(p.time)
    ensures forall i, j :: 0 <= i < j < |Normalize(t, parse).points| ==>
      Normalize(t, parse).points[i].time <= Normalize(t, parse).points[j].time
    ensures forall p :: multiset(Normalize(t, parse).points)[p] ==
                 (if TimestampColumn in p.row && parse(p.row[TimestampColumn]) == Some(p.time) then multiset(t.rows)[p.row] else 0)
  {
    TimestampCells(t);
    forall p ensures multiset(ParsedRows(t.rows, parse))[p] ==
                     (if TimestampColumn in p.row && parse(p.row[TimestampColumn]) == Some(p.time) then multiset(t.rows)[p.row] else 0)
    {
      ParsedRowsCount(t.rows, parse, p);
    }
    var kept := ParsedRows(t.rows, parse);
    var sorted := Normalize(t, parse).points;
    assert sorted == SortBy(kept, StampKey);
    forall p ensures p in sorted <==> p in kept {
      assert p in sorted <==> p in multiset(sorted);
      assert p in kept <==> p in multiset(kept);
    }
  }

  /**
   * Without a Timestamp column: a Timestamp column is added, every row keeps its
   * place, and row i is stamped SynthStart + i seconds.
   */
  lemma NormalizeSynthesized(t: Table, parse: string -> Option<int>)
    requires Rectangular(t) && TimestampColumn !in t.columns
    ensures Normalize(t, parse).columns == t.columns + [TimestampColumn]
    ensures |Normalize(t, parse).points| == |t.rows|
    ensures forall i :: 0 <= i < |t.rows| ==> Normalize(t, parse).points[i] == Stamped(SynthStart + i, t.rows[i])
    ensures forall i, j :: 0 <= i < j < |t.rows| ==>
      Normalize(t, parse).points[i].time < Normalize(t, parse).points[j].time
  {
  }

  /** Lines 63-71: processed_dfs holds the processed table of every date, in the same key order. */
  method NormalizeAll(dfs: Dict<Table>, parse: string -> Option<int>) returns (processed: Dict<Frame>)
    requires Valid(dfs)
    requires forall k :: k in dfs.values ==> Rectangular(dfs.values[k])
    ensures Valid(processed) && processed.keys == dfs.keys
    ensures forall k :: k in processed.values <==> k in dfs.values
    ensures forall k :: k in dfs.values ==> processed.values[k] == Normalize(dfs.values[k], parse)
  {
    processed := Empty();
    for i := 0 to |dfs.keys|
      invariant Valid(processed) && processed.keys == dfs.keys[..i]
      invariant forall k :: k in processed.values ==> k in dfs.values && processed.values[k] == Normalize(dfs.values[k], parse)
    {
      var date := dfs.keys[i];
      assert date !in dfs.keys[..i];
      processed := Put(processed, date, Normalize(dfs.values[date], parse));
      assert dfs.keys[..i + 1] == dfs.keys[..i] + [date];
    }
    assert dfs.keys[..|dfs.keys|] == dfs.keys;
  }

}
