/**
 * Loading the discovered files into a dict keyed by date token
 * (plotly_csv_smb.py lines 40-51). The remote read is a parameter: load(path)
 * is None when nas.load_csv raises, and the table it returned otherwise.
 */
module Loading {
  import opened Wrappers
  import opened Discovery
  import opened OrderedDict
  import opened Tables
  import opened Lists

  /** One iteration of the loop: on success dfs[date_str] = df, on failure nothing. */
  function Step(dfs: Dict<Table>, f: DatedFile, load: string -> Option<Table>): (r: Dict<Table>)
    requires Valid(dfs)
    ensures Valid(r)
  {
    match load(f.path)
    case None => dfs
    case Some(t) => Put(dfs, f.token, t)
  }

  /** The dict after the loop has run over files. */
  function Loaded(files: seq<DatedFile>, load: string -> Option<Table>): (r: Dict<Table>)
    ensures Valid(r)
  {
    if files == [] then Empty()
    else Step(Loaded(files[..|files| - 1], load), files[|files| - 1], load)
  }

  /** The tokens of the files that loaded, in file order, repeats included. */
  function LoadedTokens(files: seq<DatedFile>, load: string -> Option<Table>): (r: seq<string>)
    ensures forall k :: k in r <==> exists i :: 0 <= i < |files| && files[i].token == k && load(files[i].path).Some?
  {
    if files == [] then []
    else
      var init, last := files[..|files| - 1], files[|files| - 1];
      assert forall i :: 0 <= i < |init| ==> init[i] == files[i];
      LoadedTokens(init, load) + (if load(last.path).Some? then [last.token] else [])
  }

  /** The loaded tokens of a concatenation are those of each part, in order. */
  lemma {:induction false} LoadedTokensAppend(a: seq<DatedFile>, b: seq<DatedFile>, load: string -> Option<Table>)
    ensures LoadedTokens(a + b, load) == LoadedTokens(a, load) + LoadedTokens(b, load)
  {
    if b == [] {
      assert a + b == a;
    } else {
      var init := b[..|b| - 1];
      LoadedTokensAppend(a, init, load);
      assert (a + b)[..|a + b| - 1] == a + init;
      assert (a + b)[|a + b| - 1] == b[|b| - 1];
    }
  }

  /** A single file contributes its token iff it loads. */
  lemma LoadedTokensOne(f: DatedFile, load: string -> Option<Table>)
    ensures LoadedTokens([f], load) == if load(f.path).Some? then [f.token] else []
  {
    assert [f][..0] == [];
  }

  /** The distinct elements of s in order of first occurrence. */
  function FirstOccurrences(s: seq<string>): (r: seq<string>)
    ensures forall x :: x in r <==> x in s
    ensures forall i, j :: 0 <= i < j < |r| ==> r[i] != r[j]
    ensures forall i, j :: 0 <= i < j < |r| ==> FirstIndex(s, r[i]) < FirstIndex(s, r[j])
  {
    if s == [] then []
    else
      var init, last := s[..|s| - 1], s[|s| - 1];
      assert s == init + [last];
      FirstIndexAppend(init, last);
      var p := FirstOccurrences(init);
      if last in init then p else p + [last]
  }

  /** The table loaded last for token k, if any file with that token loaded. */
  function LastLoaded(files: seq<DatedFile>, load: string -> Option<Table>, k: string): Option<Table>
  {
    if files == [] then None
    else
      var last := files[|files| - 1];
      if last.token == k && load(last.path).Some? then load(last.path)
      else LastLoaded(files[..|files| - 1], load, k)
  }

  /** The table kept for k is the table some file with token k loaded. */
  lemma {:induction false} LastLoadedFrom(files: seq<DatedFile>, load: string -> Option<Table>, k: string)
    requires LastLoaded(files, load, k).Some?
    ensures exists i :: 0 <= i < |files| && files[i].token == k && load(files[i].path) == LastLoaded(files, load, k)
  {
    var last := files[|files| - 1];
    if !(last.token == k && load(last.path).Some?) {
      var init := files[..|files| - 1];
      LastLoadedFrom(init, load, k);
      var i :| 0 <= i < |init| && init[i].token == k && load(init[i].path) == LastLoaded(init, load, k);
      assert files[i] == init[i];
    }
  }

  /** The table of the successful file i is kept for its token when no later file with the same token loads. */
  lemma {:induction false} LastLoadedAt(files: seq<DatedFile>, load: string -> Option<Table>, i: nat)
    requires i < |files| && load(files[i].path).Some?
    requires forall j :: i < j < |files| && files[j].token == files[i].token ==> load(files[j].path).None?
    ensures LastLoaded(files, load, files[i].token) == load(files[i].path)
  {
    if i < |files| - 1 {
      LastLoadedAt(files[..|files| - 1], load, i);
    }
  }

  /**
   * What the loop leaves in dfs: the keys are the tokens that loaded, in first-occurrence
   * order, and each key holds the table loaded last for it.
   */
  lemma {:induction false} LoadedContents(files: seq<DatedFile>, load: string -> Option<Table>)
    ensures Loaded(files, load).keys == FirstOccurrences(LoadedTokens(files, load))
    ensures forall k :: k in Loaded(files, load).values <==> LastLoaded(files, load, k).Some?
    ensures forall k :: k in Loaded(files, load).values ==> Some(Loaded(files, load).values[k]) == LastLoaded(files, load, k)
  {
    if files != [] {
      var init, last := files[..|files| - 1], files[|files| - 1];
      LoadedContents(init, load);
      var ts := LoadedTokens(init, load);
      if load(last.path).Some? {
        assert LoadedTokens(files, load) == ts + [last.token];
        assert (ts + [last.token])[..|ts|] == ts;
      } else {
        assert LoadedTokens(files, load) == ts + [] == ts;
      }
    }
  }

  /** dfs is empty exactly when no file loaded, which is when the script stops (lines 49-51). */
  lemma LoadedEmpty(files: seq<DatedFile>, load: string -> Option<Table>)
    ensures Loaded(files, load).keys == [] <==> forall i :: 0 <= i < |files| ==> load(files[i].path).None?
  {
    LoadedContents(files, load);
    var ts := LoadedTokens(files, load);
    if ts != [] {
      assert ts[0] in FirstOccurrences(ts);
    }
  }

  /** A file whose load fails is skipped: the dict is as if it were not listed. */
  lemma {:induction false} SkipFailed(before: seq<DatedFile>, f: DatedFile, after: seq<DatedFile>, load: string -> Option<Table>)
    requires load(f.path).None?
    ensures Loaded(before + [f] + after, load) == Loaded(before + after, load)
  {
    if after == [] {
      assert before + [f] + after == before + [f];
      assert (before + [f])[..|before|] == before;
      assert before + after == before;
    } else {
      var init := after[..|after| - 1];
      SkipFailed(before, f, init, load);
      assert (before + [f] + after)[..|before + [f] + after| - 1] == before + [f] + init;
      assert (before + after)[..|before + after| - 1] == before + init;
    }
  }

  /** Lines 40-47: the load loop over the sorted dated files. */
  method LoadAll(files: seq<DatedFile>, load: string -> Option<Table>) returns (dfs: Dict<Table>)
    ensures dfs == Loaded(files, load)
    ensures Valid(dfs)
    ensures dfs.keys == FirstOccurrences(LoadedTokens(files, load))
    ensures forall k :: k in dfs.values <==> LastLoaded(files, load, k).Some?
    ensures forall k :: k in dfs.values ==> Some(dfs.values[k]) == LastLoaded(files, load, k)
  {
    dfs := Empty();
    for i := 0 to |files|
      invariant dfs == Loaded(files[..i], load)
    {
      assert files[..i + 1][..i] == files[..i];
      var df := load(files[i].path);
      if df.Some? {
        dfs := Put(dfs, files[i].token, df.value);
      }
    }
    assert files[..|files|] == files;
    LoadedContents(files, load);
  }

}
