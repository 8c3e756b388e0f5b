/**
 * Discovery of the dated CSV files in a listing (plotly_csv_smb.py lines 20-33):
 * a name is kept when it ends in eight digits and ".csv" and those digits are a
 * calendar date; the kept entries are sorted by date with a stable sort.
 */
module Discovery {
  import opened Wrappers
  import opened Calendar
  import opened Sorting

  /** One kept listing entry: the name, its eight-digit token and the parsed date. */
  datatype DatedFile = DatedFile(path: string, token: string, date: Date)

  /** s ends in eight ASCII digits followed by ".csv". */
  predicate EndsInToken(s: string)
  {
    |s| >= 12 && s[|s| - 4..] == ".csv" && AllDigits(s[|s| - 12..|s| - 4])
  }

  /**
   * Group 1 of re.search(r'.*?(\d{8})\.csv$', name), None when there is no match.
   * Without MULTILINE, `$` matches at the end and also just before a final "\n".
   */
  function MatchToken(name: string): (r: Option<string>)
    ensures r.Some? ==> |r.value| == 8 && AllDigits(r.value)
  {
    if EndsInToken(name) then Some(name[|name| - 12..|name| - 4])
    else if |name| > 0 && name[|name| - 1] == '\n' && EndsInToken(name[..|name| - 1]) then
      var s := name[..|name| - 1];
      Some(s[|s| - 12..|s| - 4])
    else None
  }

  /** Whatever precedes it, a name ending in an eight-digit token and ".csv" matches with that token. */
  lemma MatchTokenComplete(prefix: string, token: string)
    requires |token| == 8 && AllDigits(token)
    ensures MatchToken(prefix + token + ".csv") == Some(token)
    ensures MatchToken(prefix + token + ".csv\n") == Some(token)
  {
    var a := prefix + token + ".csv";
    assert a[|a| - 4..] == ".csv" && a[|a| - 12..|a| - 4] == token;
    var b := prefix + token + ".csv\n";
    assert b[..|b| - 1] == a;
    assert !EndsInToken(b) by { assert b[|b| - 1] == '\n'; }
  }

  /** A matched token is the eight characters in front of the trailing ".csv". */
  lemma MatchTokenSound(name: string)
    requires MatchToken(name).Some?
    ensures exists prefix :: name == prefix + MatchToken(name).value + ".csv"
                          || name == prefix + MatchToken(name).value + ".csv\n"
  {
    var t := MatchToken(name).value;
    if EndsInToken(name) {
      var p := name[..|name| - 12];
      assert name == p + t + ".csv";
    } else {
      var s := name[..|name| - 1];
      var p := s[..|s| - 12];
      assert s == p + t + ".csv";
      assert name == s + "\n";
    }
  }

  /** The entry the loop appends for one listed name, if any. */
  function Entry(name: string): (r: Option<DatedFile>)
    ensures r.Some? <==> MatchToken(name).Some? && ParseDate(MatchToken(name).value).Some?
    ensures r.Some? ==> r.value.path == name && Some(r.value.token) == MatchToken(name)
                        && Some(r.value.date) == ParseDate(r.value.token)
  {
    match MatchToken(name)
    case None => None
    case Some(token) =>
      match ParseDate(token)
      case None => None
      case Some(date) => Some(DatedFile(name, token, date))
  }

  /** The kept entries of a listing, in listing order (before the sort). */
  function Candidates(listing: seq<string>): (r: seq<DatedFile>)
    ensures |r| <= |listing|
  {
    if listing == [] then []
    else
      var last := listing[|listing| - 1];
      Candidates(listing[..|listing| - 1]) + (if Entry(last).Some? then [Entry(last).value] else [])
  }

  /** Keeping is decided name by name: an entry for f is kept iff f is listed and f matches and parses. */
  lemma {:induction false} CandidatesKept(listing: seq<string>, f: string)
    ensures (exists e :: e in Candidates(listing) && e.path == f) <==> f in listing && Entry(f).Some?
    ensures forall e :: e in Candidates(listing) ==> Entry(e.path) == Some(e)
  {
    if listing != [] {
      var init := listing[..|listing| - 1];
      var last := listing[|listing| - 1];
      CandidatesKept(init, f);
      assert listing == init + [last];
      if Entry(f).Some? && f == last {
        assert Entry(last).value in Candidates(listing);
      }
    }
  }

  /** Keeping distributes over concatenation of listings: kept entries stay in listing order. */
  lemma {:induction false} CandidatesAppend(a: seq<string>, b: seq<string>)
    ensures Candidates(a + b) == Candidates(a) + Candidates(b)
  {
    if b == [] {
      assert a + b == a;
    } else {
      var init := b[..|b| - 1];
      CandidatesAppend(a, init);
      assert (a + b)[..|a + b| - 1] == a + init;
      assert (a + b)[|a + b| - 1] == b[|b| - 1];
    }
  }

  /** A single name is kept as its own entry, or skipped. */
  lemma CandidatesOne(name: string)
    ensures Candidates([name]) == if Entry(name).Some? then [Entry(name).value] else []
  {
    assert [name][..0] == [];
  }

  /** The positions of s whose element satisfies keep. */
  ghost function Positions<T>(s: seq<T>, keep: T -> bool): set<int>
  {
    set i | 0 <= i < |s| && keep(s[i])
  }

  lemma PositionsSnoc<T>(s: seq<T>, x: T, keep: T -> bool)
    ensures Positions(s + [x], keep) == Positions(s, keep) + (if keep(x) then {|s|} else {})
    ensures |s| !in Positions(s, keep)
  {
    forall i ensures i in Positions(s + [x], keep) <==> i in Positions(s, keep) || (keep(x) && i == |s|) {
      if 0 <= i < |s| {
        assert (s + [x])[i] == s[i];
      }
    }
  }

  predicate Kept(name: string)
  {
    Entry(name).Some?
  }

  /** One entry is kept per listed name that matches and parses (a name listed twice counts twice). */
  lemma {:induction false} CandidatesCount(listing: seq<string>)
    ensures |Candidates(listing)| == |Positions(listing, Kept)|
  {
    if listing == [] {
      assert Positions(listing, Kept) == {};
    } else {
      var n := |listing| - 1;
      var init := listing[..n];
      CandidatesCount(init);
      assert listing == init + [listing[n]];
      PositionsSnoc(init, listing[n], Kept);
    }
  }

  /** Any name that ends in the eight-digit form of a valid date and ".csv" is kept, with that date. */
  lemma EntryOfDate(prefix: string, d: Date)
    requires ValidDate(d)
    ensures Entry(prefix + Format(d) + ".csv") == Some(DatedFile(prefix + Format(d) + ".csv", Format(d), d))
  {
    MatchTokenComplete(prefix, Format(d));
    ParseFormat(d);
  }

  /** The kept entry of a name with a token that is not eight digits: none. */
  lemma NotDigitsRejected(name: string)
    requires |name| >= 12 && name[|name| - 4..] == ".csv" && !AllDigits(name[|name| - 12..|name| - 4])
    ensures Entry(name) == None
  {
  }

  /** A listing of two dated files and one undated one keeps the first two. */
  lemma CandidatesExample()
    ensures Candidates(["a_20250101.csv", "b_20250103.csv", "c_notadate.csv"])
         == [DatedFile("a_20250101.csv", "20250101", Date(2025, 1, 1)),
             DatedFile("b_20250103.csv", "20250103", Date(2025, 1, 3))]
  {
    var a, b, c := "a_20250101.csv", "b_20250103.csv", "c_notadate.csv";
    ExampleEntries();
    var l := [a, b, c];
    assert l[..2] == [a, b] && [a, b][..1] == [a] && [a][..0] == [];
  }

  lemma ExampleEntries()
    ensures Entry("a_20250101.csv") == Some(DatedFile("a_20250101.csv", "20250101", Date(2025, 1, 1)))
    ensures Entry("b_20250103.csv") == Some(DatedFile("b_20250103.csv", "20250103", Date(2025, 1, 3)))
    ensures Entry("c_notadate.csv") == None
  {
    ExampleFormats();
    EntryOfDate("a_", Date(2025, 1, 1));
    EntryOfDate("b_", Date(2025, 1, 3));
    ExampleNames();
    NotDigitsRejected("c_notadate.csv");
  }

  lemma ExampleNames()
    ensures "a_20250101.csv" == "a_" + "20250101" + ".csv"
    ensures "b_20250103.csv" == "b_" + "20250103" + ".csv"
    ensures !AllDigits("c_notadate.csv"[2..10])
  {
    assert "c_notadate.csv"[2..10][0] == 'n';
  }

  lemma ExampleFormats()
    ensures Format(Date(2025, 1, 1)) == "20250101"
    ensures Format(Date(2025, 1, 3)) == "20250103"
  {
    assert Digits(2025, 4) == "2025";
    assert Digits(1, 2) == "01";
    assert Digits(3, 2) == "03";
  }

  /** The date sort key of an entry (the datetime object compared by list.sort). */
  function FileKey(e: DatedFile): (r: int)
    ensures ValidDate(e.date) ==> 10101 <= r <= 99991231
  {
    DateKey(e.date)
  }

  /** Comparing keys compares the entries' dates, as comparing datetime objects does. */
  lemma FileKeyOrder(a: DatedFile, b: DatedFile)
    requires ValidDate(a.date) && ValidDate(b.date)
    ensures FileKey(a) <= FileKey(b) <==> NotAfter(a.date, b.date)
    ensures FileKey(a) == FileKey(b) <==> a.date == b.date
  {
    DateKeyOrder(a.date, b.date);
  }

  /** What the sorted entries satisfy: sorted by date, stable, and exactly the kept names. */
  lemma SortedCandidates(listing: seq<string>)
    ensures var dated := SortBy(Candidates(listing), FileKey);
      && SortedBy(dated, FileKey)
      && multiset(dated) == multiset(Candidates(listing))
      && (forall k :: KeyFilter(dated, FileKey, k) == KeyFilter(Candidates(listing), FileKey, k))
      && (forall e :: e in dated ==> e.path in listing && Some(e.token) == MatchToken(e.path)
                                     && Some(e.date) == ParseDate(e.token))
  {
    var kept := Candidates(listing);
    var dated := SortBy(kept, FileKey);
    forall k ensures KeyFilter(dated, FileKey, k) == KeyFilter(kept, FileKey, k) {
      SortByStable(kept, FileKey, k);
    }
    forall e | e in dated
      ensures e.path in listing && Some(e.token) == MatchToken(e.path) && Some(e.date) == ParseDate(e.token)
    {
      assert e in multiset(kept);
      CandidatesKept(listing, e.path);
    }
  }

  /** Lines 20-33: the filtering loop, then dated_files.sort(key=lambda x: x[2]). */
  method Discover(listing: seq<string>) returns (dated: seq<DatedFile>)
    ensures dated == SortBy(Candidates(listing), FileKey)
    ensures |dated| <= |listing|
    ensures multiset(dated) == multiset(Candidates(listing))
    ensures SortedBy(dated, FileKey)
    ensures forall k :: KeyFilter(dated, FileKey, k) == KeyFilter(Candidates(listing), FileKey, k)
    ensures forall e :: e in dated ==> e.path in listing && Some(e.token) == MatchToken(e.path)
                                       && Some(e.date) == ParseDate(e.token)
  {
    dated := [];
    for i := 0 to |listing|
      invariant dated == Candidates(listing[..i])
    {
      assert listing[..i + 1][..i] == listing[..i];
      var m := MatchToken(listing[i]);
      if m.Some? {
        var date := ParseDate(m.value);
        if date.Some? {
          dated := dated + [DatedFile(listing[i], m.value, date.value)];
        }
      }
    }
    assert listing[..|listing|] == listing;
    dated := SortBy(dated, FileKey);
    SortedCandidates(listing);
  }

}
