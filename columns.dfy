/** The numeric columns offered by the chart, "Power" first (plotly_csv_smb.py lines 55-58). */
module Columns {
  import opened Lists

  /** The column pinned to the front of the column list. */
  const Priority := "Power"

  /** list.remove(x): drops the first element equal to x, keeping the rest in order. */
  function RemoveFirst(s: seq<string>, x: string): (r: seq<string>)
    requires x in s
    ensures |r| == |s| - 1
    ensures multiset(r) + multiset{x} == multiset(s)
  {
    var i := FirstIndex(s, x);
    assert s == s[..i] + [s[i]] + s[i + 1..];
    s[..i] + s[i + 1..]
  }

  /**
   * The column list with "Power" moved to the front: a permutation of cols, and
   * when "Power" is absent, cols itself.
   */
  function Prioritized(cols: seq<string>): (r: seq<string>)
    ensures |r| == |cols| && multiset(r) == multiset(cols)
    ensures forall c :: c in r <==> c in cols
    ensures Priority in cols ==> r[0] == Priority
    ensures Priority in cols ==>
      r[1..] == cols[..FirstIndex(cols, Priority)] + cols[FirstIndex(cols, Priority) + 1..]
    ensures Priority !in cols ==> r == cols
  {
    if Priority in cols then
      assert ([Priority] + RemoveFirst(cols, Priority))[1..] == RemoveFirst(cols, Priority);
      [Priority] + RemoveFirst(cols, Priority)
    else cols
  }

  /** The two-column example: "Power" is pinned ahead of "Temp". */
  lemma PrioritizedExample()
    ensures Prioritized(["Temp", "Power"]) == ["Power", "Temp"]
    ensures Prioritized(["Power", "Temp"]) == ["Power", "Temp"]
    ensures Prioritized(["Temp", "Volt"]) == ["Temp", "Volt"]
  {
    assert FirstIndex(["Temp", "Power"], Priority) == 1;
    assert FirstIndex(["Power", "Temp"], Priority) == 0;
  }

  /** Lines 56-58: numeric_cols.remove("Power"); numeric_cols.insert(0, "Power"). */
  method PrioritizePower(cols: seq<string>) returns (r: seq<string>)
    ensures r == Prioritized(cols)
  {
    r := cols;
    if Priority in r {
      r := RemoveFirst(r, Priority);
      r := [Priority] + r;
    }
  }

}
