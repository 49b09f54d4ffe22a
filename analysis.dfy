/** `analyze_data`: choose the files, run `process_csv_file` on each, merge the
    results key by key, and report the summary, the rankings and the
    histogram, or one of the two "no data" outcomes. */
module Analysis {
  import opened Dicts
  import opened Tallies
  import opened Files
  import opened Rankings
  import opened Wrappers

  /** The `summary` object of the report, with exact figures. */
  datatype Summary = Summary(
    totalTransactions: nat,
    uniqueUsers: nat,
    totalVolume: real,
    successRate: real,
    passCount: nat,
    failCount: nat,
    averageVolume: real,
    averageAccessCount: real)

  datatype Report = Report(
    filesProcessed: seq<string>,
    summary: Summary,
    topUsersByVolume: seq<(string, real)>,
    topUsersByFrequency: seq<(string, nat)>,
    volumeDistribution: Dict<nat>,
    kioskActivity: seq<(string, nat)>)

  /** The two error answers ("No CSV files found" and "No valid transaction
      data found") and the report. */
  datatype AnalyzeResult =
    | NoCsvFiles
    | NoValidData
    | Analyzed(report: Report)

  /** The files to read: the requested names, or else the first (newest) of the
      available files, or none at all. */
  function Selected(requested: seq<string>, available: seq<string>): Option<seq<string>> {
    if requested != [] then Some(requested)
    else if available != [] then Some([available[0]])
    else None
  }

  /** `process_csv_file` of a name when the file exists, else nothing. The
      file system is a map from the names present in the CSV directory to
      their contents. */
  function FileResult(fs: map<string, FileContent>, name: string): Option<FileData> {
    if name in fs then ProcessFile(fs[name]) else None
  }

  /** The counters a requested name contributes to the merge, if any. */
  function FileTally(fs: map<string, FileContent>, name: string): Option<Tally> {
    match FileResult(fs, name)
    case None => None
    case Some(data) => Some(data.tally)
  }

  function Contributions(fs: map<string, FileContent>): string -> Option<Tally> {
    name => FileTally(fs, name)
  }

  /** `files_processed`: the names that gave data, in request order. */
  function LoadedNames(fs: map<string, FileContent>, names: seq<string>): seq<string> {
    PresentNames(names, Contributions(fs))
  }

  /** The counters of the files that gave data, in request order. */
  function LoadedTallies(fs: map<string, FileContent>, names: seq<string>): seq<Tally> {
    Present(names, Contributions(fs))
  }

  /** `combined_data` after the file loop. */
  function Combined(fs: map<string, FileContent>, names: seq<string>): (r: Tally)
    ensures WellFormed(r)
  {
    LoadedWellFormed(fs, names);
    MergeAll(LoadedTallies(fs, names))
  }

  /** Each file that gave data is well formed and has at least one transaction. */
  lemma LoadedWellFormed(fs: map<string, FileContent>, names: seq<string>)
    ensures forall i :: 0 <= i < |LoadedTallies(fs, names)| ==>
      WellFormed(LoadedTallies(fs, names)[i]) && LoadedTallies(fs, names)[i].totalTransactions > 0
  {
    var ts := LoadedTallies(fs, names);
    forall i | 0 <= i < |ts| ensures WellFormed(ts[i]) && ts[i].totalTransactions > 0 {
      var n := PresentFrom(names, Contributions(fs), i);
      assert FileTally(fs, n) == Some(ts[i]);
    }
  }

  // ------------------------------------------------- skipping names without data

  /** The values `f` gives for `names`, in order, skipping the names it gives nothing for. */
  function Present<T>(names: seq<string>, f: string -> Option<T>): (r: seq<T>)
    ensures |r| == |PresentNames(names, f)|
  {
    if names == [] then []
    else
      var o := f(names[|names| - 1]);
      Present(names[..|names| - 1], f) + if o.Some? then [o.v] else []
  }

  /** The names `f` gives something for, in order. */
  function PresentNames<T>(names: seq<string>, f: string -> Option<T>): seq<string> {
    if names == [] then []
    else
      var last := names[|names| - 1];
      PresentNames(names[..|names| - 1], f) + if f(last).Some? then [last] else []
  }

  lemma PresentStep<T>(names: seq<string>, f: string -> Option<T>, i: nat)
    requires i < |names|
    ensures f(names[i]).None? ==>
      && PresentNames(names[..i + 1], f) == PresentNames(names[..i], f)
      && Present(names[..i + 1], f) == Present(names[..i], f)
    ensures f(names[i]).Some? ==>
      && PresentNames(names[..i + 1], f) == PresentNames(names[..i], f) + [names[i]]
      && Present(names[..i + 1], f) == Present(names[..i], f) + [f(names[i]).v]
  {
    assert names[..i + 1][..i] == names[..i];
    assert PresentNames(names[..i], f) + [] == PresentNames(names[..i], f);
    assert Present(names[..i], f) + [] == Present(names[..i], f);
  }

  /** Every value kept comes from a name that gave it. */
  lemma {:induction false} PresentFrom<T>(names: seq<string>, f: string -> Option<T>, i: nat) returns (n: string)
    requires i < |Present(names, f)|
    ensures n in names && f(n) == Some(Present(names, f)[i])
    decreases |names|
  {
    var init, last := names[..|names| - 1], names[|names| - 1];
    if i < |Present(init, f)| {
      n := PresentFrom(init, f, i);
      assert Present(names, f)[i] == Present(init, f)[i];
      assert n in init;
    } else {
      n := last;
    }
  }

  /** A name is kept exactly when it is listed and `f` gives something for it. */
  lemma {:induction false} PresentNamesMembership<T>(names: seq<string>, f: string -> Option<T>, n: string)
    ensures n in PresentNames(names, f) <==> n in names && f(n).Some?
    decreases |names|
  {
    if names != [] {
      var init := names[..|names| - 1];
      PresentNamesMembership(init, f, n);
      assert names == init + [names[|names| - 1]];
    }
  }

  lemma {:induction false} PresentConcat<T>(a: seq<string>, b: seq<string>, f: string -> Option<T>)
    ensures PresentNames(a + b, f) == PresentNames(a, f) + PresentNames(b, f)
    ensures Present(a + b, f) == Present(a, f) + Present(b, f)
    decreases |b|
  {
    if b == [] {
      assert a + b == a;
    } else {
      var init := b[..|b| - 1];
      assert (a + b)[..|a + b| - 1] == a + init;
      PresentConcat(a, init, f);
    }
  }

  lemma PresentSplit<T>(a: seq<string>, b: seq<string>, f: string -> Option<T>)
    ensures multiset(Present(a + b, f)) == multiset(Present(a, f)) + multiset(Present(b, f))
  {
    PresentConcat(a, b, f);
  }

  lemma PresentNamesSplit<T>(a: seq<string>, b: seq<string>, f: string -> Option<T>)
    ensures multiset(PresentNames(a + b, f)) == multiset(PresentNames(a, f)) + multiset(PresentNames(b, f))
  {
    PresentConcat(a, b, f);
  }

  /** Moving the middle part of a three-part union to the end. */
  lemma Shuffle<T>(whole: multiset<T>, front: multiset<T>, x: multiset<T>, back: multiset<T>, rest: multiset<T>)
    requires whole == front + x + back && rest == front + back
    ensures whole == rest + x
  {
  }

  lemma SplitAround(s: seq<string>, i: nat)
    requires i < |s|
    ensures s == s[..i] + [s[i]] + s[i + 1..]
  {
  }

  lemma PresentLast<T>(s: seq<string>, f: string -> Option<T>)
    requires s != []
    ensures multiset(Present(s, f)) == multiset(Present(s[..|s| - 1], f)) + multiset(Present([s[|s| - 1]], f))
  {
    assert [s[|s| - 1]][..0] == [];
  }

  lemma PresentAround<T>(s: seq<string>, i: nat, f: string -> Option<T>)
    requires i < |s|
    ensures multiset(Present(s, f)) ==
      multiset(Present(s[..i], f)) + multiset(Present([s[i]], f)) + multiset(Present(s[i + 1..], f))
  {
    SplitAround(s, i);
    PresentConcat(s[..i] + [s[i]], s[i + 1..], f);
    PresentConcat(s[..i], [s[i]], f);
  }

  /** Listing the same names in another order keeps the same values, in
      another order. */
  lemma {:induction false} PresentPermutation<T>(a: seq<string>, b: seq<string>, f: string -> Option<T>)
    requires multiset(a) == multiset(b)
    ensures multiset(Present(a, f)) == multiset(Present(b, f))
    decreases |a|
  {
    if a != [] {
      var i := PermutationMatch(a, b);
      PresentPermutation(a[..|a| - 1], b[..i] + b[i + 1..], f);
      PresentSplit(b[..i], b[i + 1..], f);
      PresentLast(a, f);
      PresentAround(b, i, f);
      Shuffle(multiset(Present(b, f)), multiset(Present(b[..i], f)), multiset(Present([b[i]], f)),
        multiset(Present(b[i + 1..], f)), multiset(Present(b[..i] + b[i + 1..], f)));
    } else {
      assert |b| == |multiset(b)| == 0;
    }
  }

  lemma PresentNamesLast<T>(s: seq<string>, f: string -> Option<T>)
    requires s != []
    ensures multiset(PresentNames(s, f)) == multiset(PresentNames(s[..|s| - 1], f)) + multiset(PresentNames([s[|s| - 1]], f))
  {
    assert [s[|s| - 1]][..0] == [];
  }

  lemma PresentNamesAround<T>(s: seq<string>, i: nat, f: string -> Option<T>)
    requires i < |s|
    ensures multiset(PresentNames(s, f)) ==
      multiset(PresentNames(s[..i], f)) + multiset(PresentNames([s[i]], f)) + multiset(PresentNames(s[i + 1..], f))
  {
    SplitAround(s, i);
    PresentConcat(s[..i] + [s[i]], s[i + 1..], f);
    PresentConcat(s[..i], [s[i]], f);
  }

  /** Listing the same names in another order keeps the same names, in
      another order. */
  lemma {:induction false} PresentNamesPermutation<T>(a: seq<string>, b: seq<string>, f: string -> Option<T>)
    requires multiset(a) == multiset(b)
    ensures multiset(PresentNames(a, f)) == multiset(PresentNames(b, f))
    decreases |a|
  {
    if a != [] {
      var i := PermutationMatch(a, b);
      PresentNamesPermutation(a[..|a| - 1], b[..i] + b[i + 1..], f);
      PresentNamesSplit(b[..i], b[i + 1..], f);
      PresentNamesLast(a, f);
      PresentNamesAround(b, i, f);
      Shuffle(multiset(PresentNames(b, f)), multiset(PresentNames(b[..i], f)), multiset(PresentNames([b[i]], f)),
        multiset(PresentNames(b[i + 1..], f)), multiset(PresentNames(b[..i] + b[i + 1..], f)));
    } else {
      assert |b| == |multiset(b)| == 0;
    }
  }

  function SummaryOf(t: Tally): Summary
    requires WellFormed(t)
  {
    var s := StatsOf(t);
    Summary(t.totalTransactions, s.uniqueUsers, s.totalVolume, s.successRate, t.passCount,
      t.failCount, s.averageVolume, s.averageAccessCount)
  }

  function ReportOf(processed: seq<string>, t: Tally): Report
    requires WellFormed(t)
  {
    Report(processed, SummaryOf(t), TopUsersByVolume(t.userVolumes),
      TopUsersByFrequency(t.userAccessCount), t.volumeDistribution, KioskRanking(t.kioskActivity))
  }

  /** What `analyze_data` answers. */
  function Analyze(requested: seq<string>, available: seq<string>, fs: map<string, FileContent>): AnalyzeResult {
    match Selected(requested, available)
    case None => NoCsvFiles
    case Some(names) => AnalyzeFiles(fs, names)
  }

  /** The answer once the files to read are known. */
  function AnalyzeFiles(fs: map<string, FileContent>, names: seq<string>): AnalyzeResult {
    var combined := Combined(fs, names);
    if combined.totalTransactions == 0 then NoValidData
    else Analyzed(ReportOf(LoadedNames(fs, names), combined))
  }

  // ---------------------------------------------------------------- the loops

  /** `for k, n in items.items(): d[k] += n`. */
  method AddCountsInto(d: Dict<nat>, items: Dict<nat>) returns (r: Dict<nat>)
    requires Valid(d) && Valid(items)
    ensures r == AddCounts(d, items.order, items.entries)
  {
    r := d;
    var i := 0;
    while i < |items.order|
      invariant i <= |items.order|
      invariant forall k :: k in items.order[..i] ==> k in items.entries
      invariant r == AddCounts(d, items.order[..i], items.entries)
    {
      var k := items.order[i];
      assert items.order[..i + 1][..i] == items.order[..i];
      AddCountsStep(d, items.order[..i + 1], items.entries);
      r := AddCount(r, k, items.entries[k]);
      i := i + 1;
    }
    assert items.order[..i] == items.order;
  }

  /** `for k, v in items.items(): d[k] += v`. */
  method AddVolumesInto(d: Dict<real>, items: Dict<real>) returns (r: Dict<real>)
    requires Valid(d) && Valid(items)
    ensures r == AddVolumes(d, items.order, items.entries)
  {
    r := d;
    var i := 0;
    while i < |items.order|
      invariant i <= |items.order|
      invariant forall k :: k in items.order[..i] ==> k in items.entries
      invariant r == AddVolumes(d, items.order[..i], items.entries)
    {
      var k := items.order[i];
      assert items.order[..i + 1][..i] == items.order[..i];
      AddVolumesStep(d, items.order[..i + 1], items.entries);
      r := AddVolume(r, k, items.entries[k]);
      i := i + 1;
    }
    assert items.order[..i] == items.order;
  }

  /** The body of the file loop for a file that gave data. */
  method MergeInto(combined: Tally, data: Tally) returns (r: Tally)
    requires WellFormed(combined) && WellFormed(data)
    ensures r == Merge(combined, data)
  {
    var userVolumes := AddVolumesInto(combined.userVolumes, data.userVolumes);
    var userAccessCount := AddCountsInto(combined.userAccessCount, data.userAccessCount);
    var kioskActivity := AddCountsInto(combined.kioskActivity, data.kioskActivity);
    var volumeDistribution := AddCountsInto(combined.volumeDistribution, data.volumeDistribution);
    r := Tally(userVolumes, userAccessCount,
      combined.totalTransactions + data.totalTransactions,
      combined.passCount + data.passCount,
      combined.failCount + data.failCount,
      kioskActivity, volumeDistribution,
      combined.individualVolumes + data.individualVolumes);
  }

  /** The `for file_name in file_names` loop: missing files and files without
      data are passed over; every other file is merged in and its name recorded. */
  method MergeFiles(fs: map<string, FileContent>, names: seq<string>)
    returns (combined: Tally, processed: seq<string>)
    ensures combined == Combined(fs, names)
    ensures processed == LoadedNames(fs, names)
  {
    combined := EmptyTally();
    processed := [];
    var i := 0;
    while i < |names|
      invariant i <= |names|
      invariant combined == Combined(fs, names[..i])
      invariant processed == LoadedNames(fs, names[..i])
    {
      var name := names[i];
      PresentStep(names, Contributions(fs), i);
      LoadedWellFormed(fs, names[..i]);
      if name in fs {
        var data := ProcessCsvFile(fs[name]);
        if data.Some? {
          MergeAllSnoc(LoadedTallies(fs, names[..i]), data.v.tally);
          combined := MergeInto(combined, data.v.tally);
          processed := processed + [name];
        }
      }
      i := i + 1;
    }
    assert names[..i] == names;
  }

  /** `analyze_data()`. */
  method AnalyzeData(requested: seq<string>, available: seq<string>, fs: map<string, FileContent>)
    returns (r: AnalyzeResult)
    ensures r == Analyze(requested, available, fs)
  {
    var names := requested;
    if names == [] {
      if available != [] {
        names := [available[0]];
      } else {
        return NoCsvFiles;
      }
    }
    var combined, processed := MergeFiles(fs, names);
    if combined.totalTransactions == 0 {
      return NoValidData;
    }
    var summary := SummaryOf(combined);
    var topByVolume := TopUsersByVolume(combined.userVolumes);
    var topByFrequency := TopUsersByFrequency(combined.userAccessCount);
    var kiosks := KioskRanking(combined.kioskActivity);
    r := Analyzed(Report(processed, summary, topByVolume, topByFrequency, combined.volumeDistribution, kiosks));
  }

  // ---------------------------------------------------------------- properties

  /** A name is listed in `files_processed` exactly when it was requested and
      its file exists and gave data: missing files and files without data are
      skipped silently. */
  lemma LoadedNamesMembership(fs: map<string, FileContent>, names: seq<string>, n: string)
    ensures n in LoadedNames(fs, names) <==> n in names && FileResult(fs, n).Some?
  {
    PresentNamesMembership(names, Contributions(fs), n);
  }

  /** The two "no data" answers: "No CSV files found" exactly when nothing was
      requested and no file is available, and "No valid transaction data found"
      exactly when files were selected but none of them gave data. */
  lemma AnalyzeOutcome(requested: seq<string>, available: seq<string>, fs: map<string, FileContent>)
    ensures Analyze(requested, available, fs).NoCsvFiles? <==> requested == [] && available == []
    ensures Analyze(requested, available, fs).NoValidData? <==>
      Selected(requested, available).Some? && LoadedNames(fs, Selected(requested, available).v) == []
    ensures Analyze(requested, available, fs).Analyzed? ==>
      Analyze(requested, available, fs).report.filesProcessed == LoadedNames(fs, Selected(requested, available).v)
  {
    if Selected(requested, available).Some? {
      var ts := LoadedTallies(fs, Selected(requested, available).v);
      LoadedWellFormed(fs, Selected(requested, available).v);
      MergeAllTotal(ts);
      MergeAllEmpty(ts);
    }
  }

  /** Every file that gave data satisfies the per-file conservation laws. */
  lemma LoadedConsistent(fs: map<string, FileContent>, names: seq<string>)
    ensures AllConsistent(LoadedTallies(fs, names))
  {
    var ts := LoadedTallies(fs, names);
    forall i | 0 <= i < |ts| ensures Consistent(ts[i]) {
      var n := PresentFrom(names, Contributions(fs), i);
      assert FileTally(fs, n) == Some(ts[i]);
      ProcessFileConserves(fs[n]);
    }
  }

  /** The summary of a report obeys the conservation laws of the merged data:
      the total is the sum of the files' totals, pass + fail = total, the
      histogram adds up to the total, there are no more users than
      transactions, and the success rate is a percentage. */
  lemma AnalyzedSummary(requested: seq<string>, available: seq<string>, fs: map<string, FileContent>)
    requires Analyze(requested, available, fs).Analyzed?
    ensures var rep := Analyze(requested, available, fs).report;
      var ts := LoadedTallies(fs, Selected(requested, available).v);
      && rep.summary.totalTransactions == TotalOfAll(ts) > 0
      && rep.summary.passCount + rep.summary.failCount == rep.summary.totalTransactions
      && Valid(rep.volumeDistribution)
      && CountSum(rep.volumeDistribution) == rep.summary.totalTransactions
      && rep.summary.uniqueUsers <= rep.summary.totalTransactions
      && 0.0 <= rep.summary.successRate <= 100.0
  {
    var ts := LoadedTallies(fs, Selected(requested, available).v);
    LoadedWellFormed(fs, Selected(requested, available).v);
    var t := MergeAll(ts);
    LoadedConsistent(fs, Selected(requested, available).v);
    MergeAllConsistent(ts);
    MergeAllTotal(ts);
    SumCountsAtLeastLength(t.userAccessCount.order, t.userAccessCount.entries);
    SuccessRateBounds(t.passCount, t.totalTransactions);
  }

  /** Merging the same files in another order gives the same per-key sums,
      counters and volumes, and records the same names. */
  lemma CombinedReorder(fs: map<string, FileContent>, names: seq<string>, reordered: seq<string>)
    requires multiset(names) == multiset(reordered)
    ensures ViewOf(Combined(fs, names)) == ViewOf(Combined(fs, reordered))
    ensures multiset(LoadedNames(fs, names)) == multiset(LoadedNames(fs, reordered))
  {
    LoadedWellFormed(fs, names);
    LoadedWellFormed(fs, reordered);
    PresentPermutation(names, reordered, Contributions(fs));
    PresentNamesPermutation(names, reordered, Contributions(fs));
    MergeAllPermutation(LoadedTallies(fs, names), LoadedTallies(fs, reordered));
  }

  /** Two merged tallies that agree up to order report the same summary, the
      same histogram and the same clients with the same counts. */
  lemma SameViewSameReport(t: Tally, u: Tally)
    requires WellFormed(t) && WellFormed(u) && ViewOf(t) == ViewOf(u)
    ensures SummaryOf(t) == SummaryOf(u)
    ensures forall k, v :: (k, v) in KioskRanking(t.kioskActivity) <==> (k, v) in KioskRanking(u.kioskActivity)
  {
    SameEntriesSameSums(t.userVolumes, u.userVolumes);
    SameEntriesSameCounts(t.userAccessCount, u.userAccessCount);
    OrderCardinality(t.userVolumes);
    OrderCardinality(u.userVolumes);
    OrderCardinality(t.userAccessCount);
    OrderCardinality(u.userAccessCount);
    KioskRankingSpec(t.kioskActivity);
    KioskRankingSpec(u.kioskActivity);
  }

  /** Reordering the requested files changes neither the summary, nor the
      histogram, nor which clients are ranked with which counts; only the
      order of `files_processed` (and, through the dicts' insertion order,
      which of several equal values is listed first) can change. */
  lemma AnalyzeReorder(requested: seq<string>, reordered: seq<string>, available: seq<string>, fs: map<string, FileContent>)
    requires requested != [] && multiset(requested) == multiset(reordered)
    ensures Analyze(requested, available, fs).NoValidData? <==> Analyze(reordered, available, fs).NoValidData?
    ensures Analyze(requested, available, fs).Analyzed? ==>
      var rep, rep' := Analyze(requested, available, fs).report, Analyze(reordered, available, fs).report;
      && rep.summary == rep'.summary
      && rep.volumeDistribution.entries == rep'.volumeDistribution.entries
      && multiset(rep.filesProcessed) == multiset(rep'.filesProcessed)
      && (forall k, v :: (k, v) in rep.kioskActivity <==> (k, v) in rep'.kioskActivity)
  {
    assert |reordered| == |multiset(reordered)| == |requested|;
    CombinedReorder(fs, requested, reordered);
    SameViewSameReport(Combined(fs, requested), Combined(fs, reordered));
  }
}
