# plotly_csv_smb: data preparation and trace layout, in Dafny

The script `plotly_csv_smb.py` lists a folder on a NAS and finds the daily CSV
files whose names end in a `YYYYMMDD` date. It loads each file into a table, keyed
by date. It gives each table a time axis. Then it builds a Plotly figure with one
trace per (date, numeric column) and two dropdown menus: one selects a date, the
other a column.

This project models that pipeline step by step. Each step is its own module:

- `Discovery`: the name filter (regex `.*?(\d{8})\.csv$`) and the date parse
  (`strptime('%Y%m%d')`). `Calendar` holds the calendar rules behind the parse.
  Kept entries are stably sorted by date with `Sorting.SortBy`.
- `Loading`: the tolerant load loop into an insertion-ordered dict. `OrderedDict`
  gives Python's dict semantics: overwriting a key keeps its first position.
- `Columns`: `"Power"` is moved to the front of the numeric-column list.
- `Timestamps`: the Timestamp column is parsed, unparseable rows are dropped and
  the rest sorted. With no such column, a 1-second cadence from 2025-01-01 is
  synthesised.
- `Grid` and `Traces`: the trace grid (index `d*C + c`), the initial visibility,
  and the visibility vectors of the date and column buttons.
  The two button vectors are written into arrays, as the script writes into lists.
- `Pipeline`: the whole run. It ends with `NoData` when nothing loaded.

Inputs that are foreign to the script are parameters:

- the NAS listing is a `seq<string>`;
- `nas.load_csv` is `load: string -> Option<Table>`, where `None` means the call raised;
- `pd.to_datetime(..., errors="coerce")` is `parse: string -> Option<int>`, applied cell by cell;
- the folder path in the date-button titles is a string parameter.

Times are whole seconds since 1970-01-01T00:00:00.

Notes on the code as written:

- `$` without MULTILINE also matches just before a final `"\n"`, so a name ending in `.csv\n` is accepted too.
- No underscore is required before the digits, despite the `*_YYYYMMDD.csv` comment.
- On an eight-digit token, `strptime`'s `%Y%m%d` regex settles on the 4-2-2 split or fails. So `ParseDate` is: year 1..9999, month 1..12, day within the month, with proleptic Gregorian leap years (ISO 8601 basic calendar date).
- The script has no range mode, no start/end clamping and no browser-side selector logic. The menus are static visibility vectors that show C or N traces at once.

## Model

| member | source | states |
|---|---|---|
| Sorting.SortBy | plotly_csv_smb.py:33 | the sorted list is a permutation of the input (same length, same multiset) in non-decreasing key order |
| Sorting.SortByStable | plotly_csv_smb.py:33 | stability: for every key, the elements with that key keep their input order |
| Sorting.SortedUnique | plotly_csv_smb.py:33 | two sorted lists with the same per-key subsequences are equal |
| Sorting.StableSortIsSortBy | plotly_csv_smb.py:33 | any sorted, stable rearrangement of a list (what list.sort returns) equals SortBy of it |
| Sorting.SortBySorted | plotly_csv_smb.py:69-70 | sorting a list already in key order leaves it unchanged |
| Sorting.KeyFilter | plotly_csv_smb.py:33 | the per-key subsequence holds exactly the input's elements with that key |
| Calendar.DaysInMonth | plotly_csv_smb.py:27 | January, March, May, July, August, October and December have 31 days; April, June, September and November have 30; February has 29 in leap years and 28 otherwise |
| Calendar.ParseDate | plotly_csv_smb.py:26-30 | a token that parses yields a valid calendar date; anything else is None (the caught ValueError) |
| Calendar.ParseFormat | plotly_csv_smb.py:27 | every valid date is parsed back from its eight-digit YYYYMMDD form |
| Calendar.FormatParse | plotly_csv_smb.py:27 | every accepted token is exactly the YYYYMMDD form of the date parsed from it, so tokens and dates are in bijection |
| Calendar.DateKeyOrder | plotly_csv_smb.py:33 | ordering by the integer key is chronological order of the dates, and equal keys mean equal dates |
| Calendar.NumberOfDigits | plotly_csv_smb.py:27 | reading back a zero-padded rendering of n gives n |
| Calendar.DigitsOfNumber | plotly_csv_smb.py:27 | rendering the value of a digit string at its own width gives the string back |
| Discovery.MatchToken | plotly_csv_smb.py:20-25 | a match yields eight ASCII digits |
| Discovery.MatchTokenComplete | plotly_csv_smb.py:20-25 | whatever the prefix, a name ending in eight digits and ".csv" (or ".csv" plus a final newline) matches with exactly those digits |
| Discovery.MatchTokenSound | plotly_csv_smb.py:20-25 | a name that matches is some prefix, then the token, then ".csv" (optionally a final newline) |
| Discovery.Entry | plotly_csv_smb.py:22-30 | a name yields an entry iff it matches and its token parses; the entry's token is the match and its date the parse |
| Discovery.EntryOfDate | plotly_csv_smb.py:22-30 | any name ending in the YYYYMMDD form of a valid date and ".csv" is kept with that date |
| Discovery.NotDigitsRejected | plotly_csv_smb.py:20-30 | a name ending in ".csv" whose eight characters before it are not all digits is skipped without error |
| Discovery.CandidatesExample | plotly_csv_smb.py:20-30 | a_20250101.csv and b_20250103.csv are kept with their dates; c_notadate.csv is skipped |
| Discovery.Candidates | plotly_csv_smb.py:21-30 | at most as many entries are kept as names were listed |
| Discovery.CandidatesAppend | plotly_csv_smb.py:21-30 | the entries kept from a concatenated listing are those kept from each part, in order: the loop appends in listing order |
| Discovery.CandidatesOne | plotly_csv_smb.py:23-30 | a single name contributes exactly its own entry when it matches and parses, and nothing otherwise |
| Discovery.PositionsSnoc | plotly_csv_smb.py:22 | appending an element adds its position to the kept positions exactly when it qualifies |
| Discovery.CandidatesCount | plotly_csv_smb.py:21-30 | exactly one entry is kept per listed position whose name matches and parses, repeats included |
| Discovery.CandidatesKept | plotly_csv_smb.py:21-30 | an entry for a name is kept iff the name is listed and matches and parses; every kept entry is the entry of its own name |
| Discovery.FileKey | plotly_csv_smb.py:33 | the sort key of an entry with a valid date is a positive YYYYMMDD number |
| Discovery.FileKeyOrder | plotly_csv_smb.py:33 | comparing the sort keys of two entries compares their dates chronologically, and equal keys mean equal dates |
| Discovery.SortedCandidates | plotly_csv_smb.py:21-33 | the sorted entries are non-decreasing by date, a permutation of the kept entries, and stable; each one's token is its name's match and its date that token's parse |
| Discovery.Discover | plotly_csv_smb.py:20-33 | the loop and the sort yield the stable date sort of the kept entries, with the properties above and no more entries than names |
| OrderedDict.Empty | plotly_csv_smb.py:40 | the new dict has no keys |
| OrderedDict.Put | plotly_csv_smb.py:44 | dict assignment: the value is replaced; a new key is appended to the key order and an existing key keeps its place |
| Loading.Step | plotly_csv_smb.py:42-47 | one iteration keeps the dict well-formed |
| Loading.Loaded | plotly_csv_smb.py:40-47 | the dict after the loop is well-formed |
| Loading.LoadedTokens | plotly_csv_smb.py:41-44 | a token is listed iff some file with that token loaded |
| Loading.LoadedTokensAppend | plotly_csv_smb.py:41-44 | the loaded tokens of a concatenation of files are those of each part, in file order |
| Loading.LoadedTokensOne | plotly_csv_smb.py:42-44 | a single file contributes its token exactly when its load succeeds |
| Lists.FirstIndex | plotly_csv_smb.py:57 | the position found holds x and no earlier position does |
| Loading.FirstOccurrences | plotly_csv_smb.py:44 | the result holds each element once, exactly the input's elements, ordered by first occurrence |
| Loading.LastLoadedFrom | plotly_csv_smb.py:41-44 | the table kept for a token is the table some file with that token loaded |
| Loading.LastLoadedAt | plotly_csv_smb.py:41-44 | a loaded table is the one kept for its token when no later file with that token loads |
| Loading.LoadedContents | plotly_csv_smb.py:40-47 | the dict's keys are the tokens that loaded, in first-occurrence order, and each key holds the last table loaded for it |
| Loading.LoadedEmpty | plotly_csv_smb.py:49-51 | the dict is empty exactly when every load failed |
| Loading.SkipFailed | plotly_csv_smb.py:42-47 | a file whose load raises leaves the dict exactly as if it had not been listed |
| Loading.LoadAll | plotly_csv_smb.py:40-47 | the loop builds that dict: keys in first-occurrence order, last successful table per key |
| Tables.NumericColumns | plotly_csv_smb.py:55 | the column list holds exactly the table's numeric columns, no more of them than the table has; NumericOfAppend and NumericOfOne fix their order as the table's column order |
| Tables.NumericOfAppend | plotly_csv_smb.py:55 | the numeric columns of a concatenation of column lists are those of each part, in column order |
| Tables.NumericOfOne | plotly_csv_smb.py:55 | a single column is selected exactly when its dtype is numeric |
| Columns.RemoveFirst | plotly_csv_smb.py:57 | list.remove drops one occurrence: one element shorter, same multiset less x |
| Columns.Prioritized | plotly_csv_smb.py:56-58 | a permutation of the columns; with "Power" present it is first and the rest keep their order with its first occurrence removed; with it absent the list is unchanged |
| Columns.PrioritizedExample | plotly_csv_smb.py:56-58 | [Temp, Power] becomes [Power, Temp]; lists already led by Power, or without it, are unchanged |
| Columns.PrioritizePower | plotly_csv_smb.py:56-58 | the remove-then-insert sequence yields the prioritised list |
| Timestamps.ParsedRows | plotly_csv_smb.py:66-67 | a stamped row survives iff it is a row of the table whose Timestamp cell parses, at that parsed time |
| Timestamps.ParsedRowsAppend | plotly_csv_smb.py:66-67 | the rows surviving from a concatenation are those surviving from each part, in row order |
| Timestamps.ParsedRowsOne | plotly_csv_smb.py:66-67 | a single row survives, at its parsed time, exactly when its Timestamp cell parses |
| Timestamps.ParsedRowsCount | plotly_csv_smb.py:66-67 | each row whose cell parses survives as many times as it occurs, and nothing else survives |
| Timestamps.Synthesized | plotly_csv_smb.py:69 | one synthesised time per row |
| Timestamps.SynthesizedIncreasing | plotly_csv_smb.py:69 | the synthesised times strictly increase |
| Timestamps.TimestampCells | plotly_csv_smb.py:65-66 | when the table has a Timestamp column, every row has a Timestamp cell |
| Timestamps.Normalize | plotly_csv_smb.py:64-71 | the processed table keeps every column of the loaded one, in order, and always has a Timestamp column |
| Timestamps.NormalizeSorted | plotly_csv_smb.py:64-71 | the processed rows are in non-decreasing time order and are rows of the loaded table; sorting synthesised times changes nothing |
| Timestamps.NormalizeParsed | plotly_csv_smb.py:65-67 | with a Timestamp column: the columns are unchanged; exactly the unparseable rows are dropped, each surviving row as often as it occurred, at its parsed time; times are non-decreasing |
| Timestamps.NormalizeSynthesized | plotly_csv_smb.py:68-70 | without one, a Timestamp column is added, row count and order are unchanged, and row i is at 2025-01-01 plus i seconds, strictly increasing |
| Timestamps.NormalizeAll | plotly_csv_smb.py:63-71 | processed_dfs has the same keys in the same order as dfs, each holding its table processed |
| Grid.TraceIndex | plotly_csv_smb.py:104 | for a column below C, trace d*C + c falls in date d's block of C traces |
| Grid.IndexInRange | plotly_csv_smb.py:104 | for d < N and c < C the trace index d*C + c is below N*C |
| Grid.IndexDecode | plotly_csv_smb.py:104 | the trace index d*C + c gives back d by division and c by remainder |
| Grid.IndexCover | plotly_csv_smb.py:121 | every index below N*C is d*C + c for the d and c it decodes to |
| Grid.IndexBijection | plotly_csv_smb.py:104 | (d, c) to d*C + c is a bijection from [0, N) x [0, C) onto [0, N*C) |
| Grid.InitialMask | plotly_csv_smb.py:94-95 | one visibility entry per trace |
| Grid.InitialMaskCount | plotly_csv_smb.py:86-95 | at first exactly one trace is shown, none when there are no traces |
| Grid.DateMask | plotly_csv_smb.py:102-105 | one entry per trace; DateMaskDates and DateMaskCount state which entries are true and how many |
| Grid.ColumnMask | plotly_csv_smb.py:118-122 | one entry per trace; ColumnMaskCount states how many entries are true, and MasksMeetOnce and MasksPartition state which |
| Grid.CountTrue | plotly_csv_smb.py:102 | no more true entries than entries |
| Grid.CountTrueAppend | plotly_csv_smb.py:102 | counts of concatenated vectors add up |
| Grid.CountInterval | plotly_csv_smb.py:102-105 | a vector true exactly on [lo, hi) has hi - lo true entries |
| Grid.InDateBlock | plotly_csv_smb.py:104 | trace k lies in [d*C, (d+1)*C) iff its date is d |
| Grid.DateMaskDates | plotly_csv_smb.py:102-105 | date button d's vector has N*C entries and shows trace k iff k's date is d |
| Grid.InDateAt | plotly_csv_smb.py:104 | in grid coordinates, trace (d', c) is in date d's block iff d' == d |
| Grid.DateMaskCount | plotly_csv_smb.py:102-105 | date button d shows exactly C traces |
| Grid.InColumnAt | plotly_csv_smb.py:121 | in grid coordinates, trace (d, c') plots column c iff c' == c |
| Grid.ColumnMaskCount | plotly_csv_smb.py:118-122 | column button c shows exactly N traces, one per date |
| Grid.MasksMeetOnce | plotly_csv_smb.py:99-128 | date button d and column button c share exactly one shown trace, d*C + c |
| Grid.MasksPartition | plotly_csv_smb.py:99-128 | every trace is shown by exactly one date button (date k / C) and exactly one column button (column k mod C) |
| Traces.Times | plotly_csv_smb.py:82 | x has one time per processed row, in row order |
| Traces.Values | plotly_csv_smb.py:83 | y has the column's cell of each processed row, in row order |
| Traces.Plot | plotly_csv_smb.py:80-91 | a hidden trace for that date and column, named "date - col", whose point i is the time and the column cell of processed row i |
| Traces.BuildTraces | plotly_csv_smb.py:77-95 | N*C traces; trace d*C + c is date d, column c, named "date - col", plotting that frame; only trace 0 is visible (none when N*C = 0) |
| Traces.DateVisibility | plotly_csv_smb.py:102-105 | the array the loop fills is date button d's vector: true exactly on [d*C, d*C + C) |
| Traces.ColumnStep | plotly_csv_smb.py:120-122 | extending by one date adds exactly the trace d*C + c to column c's shown set |
| Traces.ColumnVisibility | plotly_csv_smb.py:118-122 | the array the loop fills is column button c's vector: true exactly on the indices with remainder c |
| Traces.DateTitle | plotly_csv_smb.py:110 | the title is "Data Viewer - ", the date, " (", the folder and ")" |
| Traces.ColumnTitle | plotly_csv_smb.py:127 | the title is "Data Viewer - ", the column and " (all dates)" |
| Traces.DateButtons | plotly_csv_smb.py:99-112 | one button per date, in date order, labelled by its date, with that date's vector and title |
| Traces.ColumnButtons | plotly_csv_smb.py:115-128 | one button per column, in column order, labelled by its column, with that column's vector and the "(all dates)" title |
| Pipeline.ColumnsCovered | plotly_csv_smb.py:79-83 | when every table has every chosen column, every processed row has a cell for it |
| Pipeline.TablesRectangular | plotly_csv_smb.py:43-44 | when every table the loader returns is rectangular, so is every table in the dict |
| Pipeline.Render | plotly_csv_smb.py:54-128 | from a non-empty dict: columns are the first table's numeric columns with Power first, and traces and buttons are as stated above |
| Pipeline.Run | plotly_csv_smb.py:17-128 | the run stops with NoData iff no kept file loaded; otherwise the chart is built from the dict the load loop leaves |

## Left out

- The NAS client (`NasSMB`, `list_files`, `load_csv`, lines 13, 17 and 43) is foreign. The listing is an input and each read is `load(path)`. A read is assumed to return the same result for the same path. The 50,000-row cap of `load_csv` is the loader's business, and no step of the script depends on it.
- pandas is treated as an oracle:
  - `pd.to_datetime` becomes the `parse` parameter, giving whole seconds; sub-second precision is not modelled.
  - `select_dtypes` becomes each table's `numeric` column set.
  - `pd.date_range` becomes `SynthStart + i`.
  - Every loaded table is assumed rectangular, as a DataFrame is.
- Timestamps.NormalizeParsed: `sort_values` is not promised stable. This lemma claims only sortedness and the permutation, and says nothing about the order of rows with equal times.
- Pipeline.Render / Pipeline.Run: their charts plot `Normalize`'s points. `Normalize` sorts with the stable `SortBy`, so within a trace, points with equal times come in table order. That order is the model's own choice. pandas' default quicksort does not promise it, and the script may order such points differently.
- Timestamps.ParsedRows: `parse` is one cell-by-cell function shared by all tables. Line 66 converts a whole column at once. With no `format`, pandas 2 infers one format from the column's first non-missing value, and a cell in another format becomes NaT and is dropped at line 67. So whether a cell survives can depend on the other cells of its table. The model does not capture that.
- When the Timestamp column itself is numeric, it is among the chosen columns. The model plots its raw cells as y, where the script would plot the converted datetimes.
- The schema check: a table that lacks a chosen column, and does not gain it at lines 63-71, makes `df[col]` raise a KeyError at line 83. The model makes the presence of every chosen column a precondition (`Pipeline.SchemaHolds`) rather than an error path.
- Pipeline.SchemaHolds checks the loaded columns, not the processed ones. So it also excludes one run the script completes: the first table has a numeric "Timestamp" column, and a later table lacks it and gets a synthesised one at line 69. The model's y values are raw cells, and synthesised times have none, so that run is not modelled.
- Discovery.MatchToken: only ASCII digits are accepted. Python's `\d` and `strptime` also accept other Unicode decimal digits.
- The Plotly figure object, the hover template, `update_layout` with its float positions, `write_html`, `show` (lines 74, 88-89, 130-165), `load_dotenv` and all `print` output are rendering, file I/O or logging.
- `first_date_traces` (line 116) is computed and never used.
- `example/test_smb_port_connectivity.py` and `example/test_smb_list_paths.py` are network probes and listing printouts.
