/**
 * The loaded tables. The columns and the rows come from the CSV reader; the set
 * of columns with a numeric dtype is what pandas' dtype inference decided.
 */
module Tables {

  /** One row: the text of each cell, by column name. */
  type Row = map<string, string>

  datatype Table = Table(columns: seq<string>, numeric: set<string>, rows: seq<Row>)

  /** Every row has a cell for every column, as in a DataFrame. */
  ghost predicate Rectangular(t: Table)
  {
    forall i, c :: 0 <= i < |t.rows| && c in t.columns ==> c in t.rows[i]
  }

  /** df.select_dtypes(include=["number"]).columns.tolist(): the numeric columns in column order. */
  function NumericColumns(t: Table): (r: seq<string>)
    ensures |r| <= |t.columns|
    ensures forall c :: c in r <==> c in t.columns && c in t.numeric
  {
    NumericOf(t.columns, t.numeric)
  }

  function NumericOf(cols: seq<string>, numeric: set<string>): (r: seq<string>)
    ensures |r| <= |cols|
    ensures forall c :: c in r <==> c in cols && c in numeric
  {
    if cols == [] then []
    else (if cols[0] in numeric then [cols[0]] else []) + NumericOf(cols[1..], numeric)
  }

  /** Selection distributes over concatenation: the numeric columns keep the table's column order. */
  lemma {:induction false} NumericOfAppend(a: seq<string>, b: seq<string>, numeric: set<string>)
    ensures NumericOf(a + b, numeric) == NumericOf(a, numeric) + NumericOf(b, numeric)
  {
    if a == [] {
      assert a + b == b;
    } else {
      assert (a + b)[0] == a[0] && (a + b)[1..] == a[1..] + b;
      NumericOfAppend(a[1..], b, numeric);
    }
  }

  /** A single column is selected exactly when it is numeric. */
  lemma NumericOfOne(c: string, numeric: set<string>)
    ensures NumericOf([c], numeric) == if c in numeric then [c] else []
  {
    assert [c][1..] == [];
  }

}
