/** The two trend endpoints. `daily_trends` assigns each processed file's
    total volume and transaction count to its date key, so a later file with
    the same key replaces an earlier one, and lists the dates in ascending
    order. `weekday_trends` adds the same figures up per weekday name and
    lists the days Monday to Sunday, leaving out days that got nothing. */
module Trends {
  import opened Wrappers
  import opened Text
  import opened Dicts
  import opened Sorting
  import opened Tallies
  import opened Files
  import opened Calendar
  import opened Dates
  import Analysis

  /** What a processed file adds to a trend: `data['total_volume']` and
      `data['total_transactions']`. */
  function Figures(data: FileData): (real, nat) {
    (data.stats.totalVolume, data.tally.totalTransactions)
  }

  // ---------------------------------------------------------------- daily

  /** What a listed file contributes to the daily series: its key and its
      figures, or nothing when its name has no key or `process_csv_file` gives
      `None` (a listed file that has disappeared cannot be opened and gives
      `None` as well). */
  function DailyEntry(fs: map<string, FileContent>, name: string): Option<(string, (real, nat))> {
    match DateKey(name)
    case None => None
    case Some(k) =>
      match Analysis.FileResult(fs, name)
      case None => None
      case Some(data) => Some((k, Figures(data)))
  }

  /** `daily_data` and `daily_transactions` after the loop over `names`. The
      two dicts are always assigned together under the same key, so they are
      modelled as one dict of pairs. */
  function DailyTable(fs: map<string, FileContent>, names: seq<string>): Dict<(real, nat)>
    decreases |names|
  {
    if names == [] then Empty()
    else
      var d := DailyTable(fs, names[..|names| - 1]);
      match DailyEntry(fs, names[|names| - 1])
      case None => d
      case Some(e) => Put(d, e.0, e.1)
  }

  /** The JSON lists of `daily_trends` (the sums and averages over them are
      not modelled). */
  datatype DailySeries = DailySeries(
    dates: seq<string>,
    displayDates: seq<string>,
    volumes: seq<real>,
    transactions: seq<nat>)

  /** The dates of the table in ascending order, each with its figures. */
  function DailySeriesOf(d: Dict<(real, nat)>): DailySeries
    requires Valid(d)
  {
    var dates := SortBy(d.order, StrLe);
    SortedKeysPresent(d);
    DailySeries(
      dates,
      seq(|dates|, i requires 0 <= i < |dates| => DisplayDate(dates[i])),
      seq(|dates|, i requires 0 <= i < |dates| => d.entries[dates[i]].0),
      seq(|dates|, i requires 0 <= i < |dates| => d.entries[dates[i]].1))
  }

  lemma SortedKeysPresent<V>(d: Dict<V>)
    requires Valid(d)
    ensures forall k :: k in SortBy(d.order, StrLe) ==> k in d.entries
  {
    var dates := SortBy(d.order, StrLe);
    forall k | k in dates ensures k in d.entries {
      assert k in multiset(dates);
    }
  }

  /** `daily_trends()`: `None` for the 404 answer when no file is listed. */
  function DailyTrendsOf(names: seq<string>, fs: map<string, FileContent>): Option<DailySeries> {
    if names == [] then None
    else
      DailyTableValid(fs, names);
      Some(DailySeriesOf(DailyTable(fs, names)))
  }

  /** The loop of `daily_trends` over the listed files, then the sorted lists. */
  method DailyTrends(names: seq<string>, fs: map<string, FileContent>) returns (r: Option<DailySeries>)
    ensures r == DailyTrendsOf(names, fs)
  {
    if names == [] {
      return None;
    }
    var table: Dict<(real, nat)> := Empty();
    for i := 0 to |names|
      invariant table == DailyTable(fs, names[..i])
    {
      assert names[..i + 1][..i] == names[..i];
      var e := FileDaily(fs, names[i]);
      if e.Some? {
        table := Put(table, e.v.0, e.v.1);
      }
    }
    assert names[..|names|] == names;
    DailyTableValid(fs, names);
    r := Some(DailySeriesOf(table));
  }

  /** The body of the file loop: the file's key, then `process_csv_file`. */
  method FileDaily(fs: map<string, FileContent>, name: string) returns (e: Option<(string, (real, nat))>)
    ensures e == DailyEntry(fs, name)
  {
    var key := DateKey(name);
    e := None;
    if key.Some? {
      var data: Option<FileData> := None;
      if name in fs {
        data := ProcessCsvFile(fs[name]);
      }
      if data.Some? {
        e := Some((key.v, Figures(data.v)));
      }
    }
  }

  /** The table is a well-formed dict whose keys all have the shape `20YY-MM-DD`. */
  lemma {:induction false} DailyTableValid(fs: map<string, FileContent>, names: seq<string>)
    ensures Valid(DailyTable(fs, names))
    ensures forall k :: k in DailyTable(fs, names).entries ==> IsKeyShape(k)
    decreases |names|
  {
    if names != [] {
      var d := DailyTable(fs, names[..|names| - 1]);
      DailyTableValid(fs, names[..|names| - 1]);
      var e := DailyEntry(fs, names[|names| - 1]);
      if e.Some? {
        PutOthers(d, e.v.0, e.v.1);
      }
    }
  }

  /** A date is in the table exactly when some listed file contributes to it. */
  lemma DailyKeys(fs: map<string, FileContent>, names: seq<string>, k: string)
    ensures k in DailyTable(fs, names).entries <==>
      exists i :: 0 <= i < |names| && DailyEntry(fs, names[i]).Some? && DailyEntry(fs, names[i]).v.0 == k
  {
    if k in DailyTable(fs, names).entries {
      var i := DailyKeyWitness(fs, names, k);
    }
    forall i | 0 <= i < |names| && DailyEntry(fs, names[i]).Some? && DailyEntry(fs, names[i]).v.0 == k
      ensures k in DailyTable(fs, names).entries
    {
      DailyKeyFrom(fs, names, i);
    }
  }

  /** Every key of the table comes from a listed file... */
  lemma {:induction false} DailyKeyWitness(fs: map<string, FileContent>, names: seq<string>, k: string) returns (i: nat)
    requires k in DailyTable(fs, names).entries
    ensures i < |names| && DailyEntry(fs, names[i]).Some? && DailyEntry(fs, names[i]).v.0 == k
    decreases |names|
  {
    var init := names[..|names| - 1];
    var e := DailyEntry(fs, names[|names| - 1]);
    if e.Some? && e.v.0 == k {
      i := |names| - 1;
    } else {
      if e.Some? {
        PutOthers(DailyTable(fs, init), e.v.0, e.v.1);
      }
      i := DailyKeyWitness(fs, init, k);
      assert init[i] == names[i];
    }
  }

  /** ...and every listed file that contributes leaves its key in the table. */
  lemma {:induction false} DailyKeyFrom(fs: map<string, FileContent>, names: seq<string>, i: nat)
    requires i < |names| && DailyEntry(fs, names[i]).Some?
    ensures DailyEntry(fs, names[i]).v.0 in DailyTable(fs, names).entries
    decreases |names|
  {
    var init := names[..|names| - 1];
    var e := DailyEntry(fs, names[|names| - 1]);
    if i < |names| - 1 {
      assert init[i] == names[i];
      DailyKeyFrom(fs, init, i);
      if e.Some? {
        PutOthers(DailyTable(fs, init), e.v.0, e.v.1);
      }
    }
  }

  /** A date's figures are those of the LAST listed file that contributes to
      it: a later file with the same date replaces the earlier figures instead
      of adding to them. */
  lemma {:induction false} DailyLast(fs: map<string, FileContent>, names: seq<string>, j: nat)
    requires j < |names| && DailyEntry(fs, names[j]).Some?
    requires forall i :: j < i < |names| && DailyEntry(fs, names[i]).Some? ==>
      DailyEntry(fs, names[i]).v.0 != DailyEntry(fs, names[j]).v.0
    ensures var e := DailyEntry(fs, names[j]).v;
      e.0 in DailyTable(fs, names).entries && DailyTable(fs, names).entries[e.0] == e.1
    decreases |names|
  {
    var e := DailyEntry(fs, names[j]).v;
    var init := names[..|names| - 1];
    var last := DailyEntry(fs, names[|names| - 1]);
    if j < |names| - 1 {
      assert init[j] == names[j];
      forall i | j < i < |init| && DailyEntry(fs, init[i]).Some?
        ensures DailyEntry(fs, init[i]).v.0 != DailyEntry(fs, init[j]).v.0
      {
        assert init[i] == names[i];
      }
      DailyLast(fs, init, j);
      if last.Some? {
        PutOthers(DailyTable(fs, init), last.v.0, last.v.1);
      }
    }
  }

  /** Strictly ascending dates, each listed once, exactly the table's keys, each
      with its own figures and its display form. */
  lemma DailySeriesSpec(d: Dict<(real, nat)>)
    requires Valid(d)
    ensures var r := DailySeriesOf(d);
      && |r.displayDates| == |r.dates| && |r.volumes| == |r.dates| && |r.transactions| == |r.dates|
      && |r.dates| == |d.entries|
      && (forall i, j :: 0 <= i < j < |r.dates| ==> StrLe(r.dates[i], r.dates[j]) && r.dates[i] != r.dates[j])
      && (forall k :: k in r.dates <==> k in d.entries)
      && (forall i :: 0 <= i < |r.dates| ==>
            && r.dates[i] in d.entries
            && r.volumes[i] == d.entries[r.dates[i]].0
            && r.transactions[i] == d.entries[r.dates[i]].1
            && r.displayDates[i] == DisplayDate(r.dates[i]))
  {
    var dates := SortBy(d.order, StrLe);
    StrLeTotalPreorder();
    SortBySorted(d.order, StrLe);
    OrderCardinality(d);
    SortedKeysPresent(d);
    forall k ensures k in dates <==> k in d.entries {
      assert k in dates <==> k in multiset(dates);
    }
    DistinctMultiplicityFree(d.order, dates);
  }

  /** A permutation of a duplicate-free list is duplicate-free. */
  lemma DistinctMultiplicityFree(a: seq<string>, b: seq<string>)
    requires Distinct(a) && multiset(a) == multiset(b)
    ensures Distinct(b)
  {
    forall i, j | 0 <= i < j < |b| ensures b[i] != b[j] {
      DistinctMultiplicity(a, b[i]);
      RepeatedTwice(b, i, j);
    }
  }

  /** An element found at two positions occurs at least twice. */
  lemma RepeatedTwice(b: seq<string>, i: nat, j: nat)
    requires i < j < |b|
    ensures b[i] == b[j] ==> multiset(b)[b[i]] >= 2
  {
    assert b == b[..i] + [b[i]] + b[i + 1..j] + [b[j]] + b[j + 1..];
  }

  /** Python's `<=` on strings orders them totally. */
  lemma StrLeTotalPreorder()
    ensures TotalPreorder(StrLe)
  {
    forall a, b ensures StrLe(a, b) || StrLe(b, a) {
      StrLeTotal(a, b);
    }
    forall a, b, c | StrLe(a, b) && StrLe(b, c) ensures StrLe(a, c) {
      StrLeTransitive(a, b, c);
    }
  }

  // ---------------------------------------------------------------- display dates

  /** `date.replace('20', '')` as written: every "20" goes, not only the century. */
  function DisplayAsWritten(k: string): string {
    RemoveAll(k, "20")
  }

  /** The display form the code evidently intends: the key without its leading "20". */
  function DisplayDate(k: string): string {
    if |k| >= 2 && k[..2] == "20" then k[2..] else k
  }

  /** As written, a key whose day is 20 loses the day: "2025-11-20" is shown as
      "25-11-". */
  lemma DisplayAsWrittenLosesDay()
    ensures DisplayAsWritten("2025-11-20") == "25-11-"
    ensures DisplayDate("2025-11-20") == "25-11-20"
  {
    var day := "5-11-";
    var rest := "2" + day + "20";
    assert "2025-11-20" == "20" + rest;
    RemoveAllLeading("20", rest);
    assert rest[1] == '5';
    assert RemoveAll(rest, "20") == "2" + RemoveAll(rest[1..], "20");
    assert rest[1..] == day + "20";
    RemoveAllKeeps(day, "20", "20");
    assert "20" == "20" + [];
    RemoveAllLeading("20", []);
  }

  /** The intended display form loses nothing: the key is the display form
      behind "20", so distinct dates are displayed distinctly. */
  lemma DisplayDateRoundTrip(k: string)
    requires IsKeyShape(k)
    ensures "20" + DisplayDate(k) == k && |DisplayDate(k)| == 8
  {
    assert k == k[..2] + k[2..];
  }

  /** Both forms agree whenever no '2' follows the century. */
  lemma DisplayAgrees(k: string)
    requires IsKeyShape(k) && forall i :: 2 <= i < |k| ==> k[i] != '2'
    ensures DisplayAsWritten(k) == DisplayDate(k)
  {
    var rest := k[2..];
    assert k == "20" + rest;
    RemoveAllLeading("20", rest);
    assert rest == rest + [];
    RemoveAllKeeps(rest, [], "20");
  }

  // ---------------------------------------------------------------- weekday

  /** The weekday of a listed file: `None` when its name has no key, or when
      `strptime` rejects the key (the `ValueError` is caught and the file
      skipped). */
  function WeekdayOfName(name: string): (r: Option<nat>)
    ensures r.Some? ==> r.v < 7
  {
    match DateKey(name)
    case None => None
    case Some(k) =>
      match ParseYmd(k)
      case None => None
      case Some(d) => Some(Weekday(d))
  }

  /** A file gets a weekday exactly when its key spells an existing date, with
      leading zeros or a blank before a one-digit day, and the weekday is that
      date's. */
  lemma WeekdayOfNameSpec(name: string)
    ensures WeekdayOfName(name).Some? <==>
      DateKey(name).Some? && exists d :: ValidDate(d) && DateKey(name).v in WrittenForms(d)
    ensures WeekdayOfName(name).Some? ==>
      forall d :: ValidDate(d) && DateKey(name).v in WrittenForms(d) ==> WeekdayOfName(name).v == Weekday(d)
  {
    if DateKey(name).Some? {
      var k := DateKey(name).v;
      if ParseYmd(k).Some? {
        ParseKey(k);
        var d := ParseYmd(k).v;
        assert k in WrittenForms(d);
      }
      forall d | ValidDate(d) && k in WrittenForms(d) ensures ParseYmd(k) == Some(d) {
        ParseFormat(d);
      }
    }
  }

  /** The ways `strptime` accepts a date in ten characters. */
  function WrittenForms(d: Date): set<string>
    requires ValidDate(d)
  {
    if d.day <= 9 then {FormatYmd(d), FormatYmdBlankDay(d)} else {FormatYmd(d)}
  }

  /** What a listed file contributes to the weekday series: its day name and
      its figures, or nothing. */
  function WeekdayEntry(fs: map<string, FileContent>, name: string): Option<(string, (real, nat))> {
    match WeekdayOfName(name)
    case None => None
    case Some(w) =>
      match Analysis.FileResult(fs, name)
      case None => None
      case Some(data) => Some((DayNames[w], Figures(data)))
  }

  /** `weekday_volumes` and `weekday_transactions`. */
  datatype WeekdayTotals = WeekdayTotals(volumes: Dict<real>, transactions: Dict<nat>)

  /** The two dicts after the loop over `names`: each contributing file's
      figures are added (`+=`) to its day. */
  function WeekdayTable(fs: map<string, FileContent>, names: seq<string>): WeekdayTotals
    decreases |names|
  {
    if names == [] then WeekdayTotals(Empty(), Empty())
    else
      var t := WeekdayTable(fs, names[..|names| - 1]);
      match WeekdayEntry(fs, names[|names| - 1])
      case None => t
      case Some(e) => WeekdayTotals(AddVolume(t.volumes, e.0, e.1.0), AddCount(t.transactions, e.0, e.1.1))
  }

  /** The volume of all listed files that fall on `day`. */
  function DayVolume(fs: map<string, FileContent>, names: seq<string>, day: string): real
    decreases |names|
  {
    if names == [] then 0.0
    else
      var e := WeekdayEntry(fs, names[|names| - 1]);
      DayVolume(fs, names[..|names| - 1], day) + if e.Some? && e.v.0 == day then e.v.1.0 else 0.0
  }

  /** The transactions of all listed files that fall on `day`. */
  function DayTransactions(fs: map<string, FileContent>, names: seq<string>, day: string): nat
    decreases |names|
  {
    if names == [] then 0
    else
      var e := WeekdayEntry(fs, names[|names| - 1]);
      DayTransactions(fs, names[..|names| - 1], day) + if e.Some? && e.v.0 == day then e.v.1.1 else 0
  }

  /** Both dicts are well-formed, gain their keys together, and only day names
      are keys. */
  lemma {:induction false} WeekdayTableValid(fs: map<string, FileContent>, names: seq<string>)
    ensures var t := WeekdayTable(fs, names);
      && Valid(t.volumes) && Valid(t.transactions) && t.volumes.order == t.transactions.order
      && forall k :: k in t.volumes.entries ==> k in DayNames
    decreases |names|
  {
    if names != [] {
      var t := WeekdayTable(fs, names[..|names| - 1]);
      WeekdayTableValid(fs, names[..|names| - 1]);
      var e := WeekdayEntry(fs, names[|names| - 1]);
      if e.Some? {
        AddVolumeOthers(t.volumes, e.v.0, e.v.1.0);
        AddCountOthers(t.transactions, e.v.0, e.v.1.1);
      }
    }
  }

  /** Each day holds the SUM of the figures of all files on that day. */
  lemma WeekdayTableSums(fs: map<string, FileContent>, names: seq<string>, day: string)
    ensures Volume(WeekdayTable(fs, names).volumes, day) == DayVolume(fs, names, day)
    ensures Count(WeekdayTable(fs, names).transactions, day) == DayTransactions(fs, names, day)
  {
    WeekdayTableVolume(fs, names, day);
    WeekdayTableTransactions(fs, names, day);
  }

  lemma {:induction false} WeekdayTableVolume(fs: map<string, FileContent>, names: seq<string>, day: string)
    ensures Volume(WeekdayTable(fs, names).volumes, day) == DayVolume(fs, names, day)
    decreases |names|
  {
    if names != [] {
      var t := WeekdayTable(fs, names[..|names| - 1]);
      WeekdayTableVolume(fs, names[..|names| - 1], day);
      var e := WeekdayEntry(fs, names[|names| - 1]);
      if e.Some? {
        assert WeekdayTable(fs, names).volumes == AddVolume(t.volumes, e.v.0, e.v.1.0);
        AddVolumeOthers(t.volumes, e.v.0, e.v.1.0);
      }
    }
  }

  lemma {:induction false} WeekdayTableTransactions(fs: map<string, FileContent>, names: seq<string>, day: string)
    ensures Count(WeekdayTable(fs, names).transactions, day) == DayTransactions(fs, names, day)
    decreases |names|
  {
    if names != [] {
      var t := WeekdayTable(fs, names[..|names| - 1]);
      WeekdayTableTransactions(fs, names[..|names| - 1], day);
      var e := WeekdayEntry(fs, names[|names| - 1]);
      if e.Some? {
        assert WeekdayTable(fs, names).transactions == AddCount(t.transactions, e.v.0, e.v.1.1);
        AddCountOthers(t.transactions, e.v.0, e.v.1.1);
      }
    }
  }

  /** A day is a key exactly when some listed file falls on it. */
  lemma WeekdayKeys(fs: map<string, FileContent>, names: seq<string>, day: string)
    ensures day in WeekdayTable(fs, names).volumes.entries <==>
      exists i :: 0 <= i < |names| && WeekdayEntry(fs, names[i]).Some? && WeekdayEntry(fs, names[i]).v.0 == day
  {
    if day in WeekdayTable(fs, names).volumes.entries {
      var i := WeekdayKeyWitness(fs, names, day);
    }
    forall i | 0 <= i < |names| && WeekdayEntry(fs, names[i]).Some? && WeekdayEntry(fs, names[i]).v.0 == day
      ensures day in WeekdayTable(fs, names).volumes.entries
    {
      WeekdayKeyFrom(fs, names, i);
    }
  }

  lemma {:induction false} WeekdayKeyWitness(fs: map<string, FileContent>, names: seq<string>, day: string) returns (i: nat)
    requires day in WeekdayTable(fs, names).volumes.entries
    ensures i < |names| && WeekdayEntry(fs, names[i]).Some? && WeekdayEntry(fs, names[i]).v.0 == day
    decreases |names|
  {
    var init := names[..|names| - 1];
    var e := WeekdayEntry(fs, names[|names| - 1]);
    if e.Some? && e.v.0 == day {
      i := |names| - 1;
    } else {
      if e.Some? {
        AddVolumeOthers(WeekdayTable(fs, init).volumes, e.v.0, e.v.1.0);
      }
      i := WeekdayKeyWitness(fs, init, day);
      assert init[i] == names[i];
    }
  }

  lemma {:induction false} WeekdayKeyFrom(fs: map<string, FileContent>, names: seq<string>, i: nat)
    requires i < |names| && WeekdayEntry(fs, names[i]).Some?
    ensures WeekdayEntry(fs, names[i]).v.0 in WeekdayTable(fs, names).volumes.entries
    decreases |names|
  {
    var init := names[..|names| - 1];
    var e := WeekdayEntry(fs, names[|names| - 1]);
    if i < |names| - 1 {
      assert init[i] == names[i];
      WeekdayKeyFrom(fs, init, i);
      if e.Some? {
        AddVolumeOthers(WeekdayTable(fs, init).volumes, e.v.0, e.v.1.0);
      }
    }
  }

  /** The JSON answer of `weekday_trends` (without rounding). The two
      `average_*_by_day` maps hold each day's totals, as in the source. */
  datatype WeekdaySeries = WeekdaySeries(
    days: seq<string>,
    volumes: seq<real>,
    transactions: seq<nat>,
    totalVolume: real,
    totalTransactions: nat,
    averageVolumeByDay: map<string, real>,
    averageTransactionsByDay: map<string, nat>)

  /** The `result` dict before the loop over the day names: no days yet, and
      the totals `sum(d.values())` of both dicts. */
  function Initial(t: WeekdayTotals): WeekdaySeries
    requires Valid(t.volumes) && Valid(t.transactions)
  {
    WeekdaySeries([], [], [], VolumeSum(t.volumes), CountSum(t.transactions), map[], map[])
  }

  /** The loop over `days`: each day that is a key of the volumes is appended
      with its figures. */
  function Emit(days: seq<string>, t: WeekdayTotals, init: WeekdaySeries): WeekdaySeries
    decreases |days|
  {
    if days == [] then init
    else
      var r := Emit(days[..|days| - 1], t, init);
      var day := days[|days| - 1];
      if day in t.volumes.entries then
        var v, n := t.volumes.entries[day], Count(t.transactions, day);
        r.(days := r.days + [day], volumes := r.volumes + [v], transactions := r.transactions + [n],
           averageVolumeByDay := r.averageVolumeByDay[day := v],
           averageTransactionsByDay := r.averageTransactionsByDay[day := n])
      else r
  }

  /** The emitted lists line up, the totals are left as they were, and the
      emitted days are exactly the candidate days that are keys of the volumes. */
  lemma {:induction false} EmitDays(days: seq<string>, t: WeekdayTotals, init: WeekdaySeries)
    requires init.days == [] && init.volumes == [] && init.transactions == []
    ensures var r := Emit(days, t, init);
      && |r.volumes| == |r.days| && |r.transactions| == |r.days|
      && r.totalVolume == init.totalVolume && r.totalTransactions == init.totalTransactions
      && (forall x :: x in r.days <==> x in days && x in t.volumes.entries)
    decreases |days|
  {
    if days != [] {
      var init' := days[..|days| - 1];
      EmitDays(init', t, init);
      assert days == init' + [days[|days| - 1]];
    }
  }

  /** Each emitted day carries its own figures. */
  lemma {:induction false} EmitValues(days: seq<string>, t: WeekdayTotals, init: WeekdaySeries)
    requires init.days == [] && init.volumes == [] && init.transactions == []
    ensures var r := Emit(days, t, init);
      && |r.volumes| == |r.days| && |r.transactions| == |r.days|
      && (forall i :: 0 <= i < |r.days| ==>
            r.days[i] in t.volumes.entries && r.volumes[i] == t.volumes.entries[r.days[i]]
            && r.transactions[i] == Count(t.transactions, r.days[i]))
    decreases |days|
  {
    if days != [] {
      EmitValues(days[..|days| - 1], t, init);
    }
  }

  /** The `average_*_by_day` maps hold, for each emitted day and nothing else,
      the same figures as the lists. */
  lemma {:induction false} EmitAverages(days: seq<string>, t: WeekdayTotals, init: WeekdaySeries)
    requires init.days == [] && init.volumes == [] && init.transactions == []
    requires init.averageVolumeByDay == map[] && init.averageTransactionsByDay == map[]
    ensures var r := Emit(days, t, init);
      && (forall x :: x in r.averageVolumeByDay <==> x in r.days)
      && (forall x :: x in r.averageTransactionsByDay <==> x in r.days)
      && (forall x :: x in r.averageVolumeByDay ==>
            x in t.volumes.entries && r.averageVolumeByDay[x] == t.volumes.entries[x]
            && r.averageTransactionsByDay[x] == Count(t.transactions, x))
    decreases |days|
  {
    if days != [] {
      var s := Emit(days[..|days| - 1], t, init);
      EmitAverages(days[..|days| - 1], t, init);
      var day := days[|days| - 1];
      if day in t.volumes.entries {
        assert forall x :: x in s.days + [day] <==> x in s.days || x == day;
      }
    }
  }

  /** Emitted days keep the order of the candidate list: with Monday..Sunday
      as candidates, the days come out Monday first. */
  lemma {:induction false} EmitOrder(days: seq<string>, t: WeekdayTotals, init: WeekdaySeries)
    requires Distinct(days)
    requires init.days == [] && init.volumes == [] && init.transactions == []
    ensures var r := Emit(days, t, init);
      forall i, j, p, q ::
        (0 <= i < j < |r.days| && 0 <= p < |days| && 0 <= q < |days|
         && r.days[i] == days[p] && r.days[j] == days[q]) ==> p < q
    decreases |days|
  {
    if days != [] {
      var last := |days| - 1;
      var init' := days[..last];
      var s := Emit(init', t, init);
      var r := Emit(days, t, init);
      EmitOrder(init', t, init);
      EmitDays(init', t, init);
      forall i, j, p, q | 0 <= i < j < |r.days| && 0 <= p < |days| && 0 <= q < |days|
        && r.days[i] == days[p] && r.days[j] == days[q]
        ensures p < q
      {
        assert r.days[i] == s.days[i];
        assert s.days[i] in init';
        if j < |s.days| {
          assert r.days[j] == s.days[j];
          assert s.days[j] in init';
          assert p < last && q < last by {
            DistinctLastNotBefore(days, s.days[i], p);
            DistinctLastNotBefore(days, s.days[j], q);
          }
          assert init'[p] == days[p] && init'[q] == days[q];
        } else {
          assert r.days[j] == days[last];
          DistinctLastNotBefore(days, s.days[i], p);
          assert q == last;
        }
      }
    }
  }

  /** In a duplicate-free list, the position of an element found before the
      last position is before the last position. */
  lemma DistinctLastNotBefore(days: seq<string>, x: string, p: nat)
    requires Distinct(days) && p < |days| && days[p] == x && x in days[..|days| - 1]
    ensures p < |days| - 1
  {
    var k :| 0 <= k < |days| - 1 && days[..|days| - 1][k] == x;
    assert days[k] == x;
  }

  /** `sum(transactions)`. */
  function SumNats(ns: seq<nat>): nat {
    if ns == [] then 0 else SumNats(ns[..|ns| - 1]) + ns[|ns| - 1]
  }

  /** The sums of the emitted lists are the sums over the emitted days. */
  lemma {:induction false} EmitSums(days: seq<string>, t: WeekdayTotals, init: WeekdaySeries)
    requires init.days == [] && init.volumes == [] && init.transactions == []
    requires forall k :: k in t.volumes.entries ==> k in t.transactions.entries
    ensures var r := Emit(days, t, init);
      && (forall k :: k in r.days ==> k in t.volumes.entries && k in t.transactions.entries)
      && Sum(r.volumes) == SumVolumes(r.days, t.volumes.entries)
      && SumNats(r.transactions) == SumCounts(r.days, t.transactions.entries)
    decreases |days|
  {
    EmitDays(days, t, init);
    if days != [] {
      var s := Emit(days[..|days| - 1], t, init);
      var r := Emit(days, t, init);
      EmitSums(days[..|days| - 1], t, init);
      if r != s {
        assert r.days[..|r.days| - 1] == s.days;
        assert r.volumes[..|r.volumes| - 1] == s.volumes;
        assert r.transactions[..|r.transactions| - 1] == s.transactions;
      }
    }
  }

  lemma DayNamesDistinct()
    ensures Distinct(DayNames)
  {
    forall i, j | 0 <= i < j < |DayNames| ensures DayNames[i] != DayNames[j] {
      assert DayNames[i][0] != DayNames[j][0] || DayNames[i][1] != DayNames[j][1];
    }
  }

  /** The weekday answer lists the days Monday to Sunday, in that order, and
      exactly the days that received at least one file. */
  lemma WeekdayTrendsDays(names: seq<string>, fs: map<string, FileContent>)
    requires names != []
    ensures var r := WeekdayTrendsOf(names, fs).v;
      && |r.volumes| == |r.days| && |r.transactions| == |r.days|
      && (forall i, j, p, q ::
            (0 <= i < j < |r.days| && 0 <= p < 7 && 0 <= q < 7
             && r.days[i] == DayNames[p] && r.days[j] == DayNames[q]) ==> p < q)
      && (forall x :: x in r.days <==> x in DayNames && x in WeekdayTable(fs, names).volumes.entries)
  {
    WeekdayTableValid(fs, names);
    var t := WeekdayTable(fs, names);
    DayNamesDistinct();
    EmitDays(DayNames, t, Initial(t));
    EmitOrder(DayNames, t, Initial(t));
  }

  /** Each listed day carries the sum of the figures of its files, and the
      `average_*_by_day` maps hold the same sums for the listed days. */
  lemma WeekdayTrendsFigures(names: seq<string>, fs: map<string, FileContent>)
    requires names != []
    ensures var r := WeekdayTrendsOf(names, fs).v;
      && |r.volumes| == |r.days| && |r.transactions| == |r.days|
      && (forall i :: 0 <= i < |r.days| ==>
            r.volumes[i] == DayVolume(fs, names, r.days[i])
            && r.transactions[i] == DayTransactions(fs, names, r.days[i]))
      && (forall x :: x in r.averageVolumeByDay <==> x in r.days)
      && (forall x :: x in r.averageVolumeByDay ==>
            r.averageVolumeByDay[x] == DayVolume(fs, names, x)
            && x in r.averageTransactionsByDay && r.averageTransactionsByDay[x] == DayTransactions(fs, names, x))
  {
    WeekdayTableValid(fs, names);
    var t := WeekdayTable(fs, names);
    EmitValues(DayNames, t, Initial(t));
    EmitAverages(DayNames, t, Initial(t));
    forall x ensures Volume(t.volumes, x) == DayVolume(fs, names, x)
      && Count(t.transactions, x) == DayTransactions(fs, names, x)
    {
      WeekdayTableSums(fs, names, x);
    }
  }

  /** `sum(weekday_volumes.values())` is the sum of the listed volumes, and the
      same for transactions: every key of the tallies is a day name, and each
      one is listed once. */
  lemma WeekdayTotalsAreSums(names: seq<string>, fs: map<string, FileContent>)
    requires names != []
    ensures var r := WeekdayTrendsOf(names, fs).v;
      r.totalVolume == Sum(r.volumes) && r.totalTransactions == SumNats(r.transactions)
  {
    WeekdayTableValid(fs, names);
    var t := WeekdayTable(fs, names);
    var r := WeekdayTrendsOf(names, fs).v;
    WeekdayTrendsDays(names, fs);
    EmitDays(DayNames, t, Initial(t));
    EmitSums(DayNames, t, Initial(t));
    assert Distinct(r.days) by {
      forall i, j | 0 <= i < j < |r.days| ensures r.days[i] != r.days[j] {
        RepeatedDay(r.days, i, j);
      }
    }
    DistinctSameSetPermutation(r.days, t.volumes.order);
    SumVolumesPermutation(r.days, t.volumes.order, t.volumes.entries);
    SumCountsPermutation(r.days, t.transactions.order, t.transactions.entries);
    assert r.totalVolume == SumVolumes(t.volumes.order, t.volumes.entries);
    assert r.totalTransactions == SumCounts(t.transactions.order, t.transactions.entries);
  }

  /** Two positions of a list whose days keep Monday..Sunday order cannot hold
      the same day. */
  lemma RepeatedDay(ds: seq<string>, i: nat, j: nat)
    requires i < j < |ds| && ds[i] in DayNames
    requires forall i, j, p, q ::
      (0 <= i < j < |ds| && 0 <= p < 7 && 0 <= q < 7
       && ds[i] == DayNames[p] && ds[j] == DayNames[q]) ==> p < q
    ensures ds[i] != ds[j]
  {
    var p :| 0 <= p < 7 && DayNames[p] == ds[i];
    assert ds[i] == ds[j] ==> p < p;
  }

  /** `weekday_trends()`: `None` for the 404 answer when no file is listed. */
  function WeekdayTrendsOf(names: seq<string>, fs: map<string, FileContent>): Option<WeekdaySeries> {
    if names == [] then None
    else
      WeekdayTableValid(fs, names);
      var t := WeekdayTable(fs, names);
      Some(Emit(DayNames, t, Initial(t)))
  }

  /** The loop of `weekday_trends` over the listed files, then the loop over
      the day names. */
  method WeekdayTrends(names: seq<string>, fs: map<string, FileContent>) returns (r: Option<WeekdaySeries>)
    ensures r == WeekdayTrendsOf(names, fs)
  {
    if names == [] {
      return None;
    }
    var t := AccumulateWeekdays(names, fs);
    WeekdayTableValid(fs, names);
    var result := EmitDayNames(t);
    r := Some(result);
  }

  /** The second loop of `weekday_trends`: the days in calendar order, each
      listed with its figures when some file fell on it. */
  method EmitDayNames(t: WeekdayTotals) returns (result: WeekdaySeries)
    requires Valid(t.volumes) && Valid(t.transactions)
    ensures result == Emit(DayNames, t, Initial(t))
  {
    result := Initial(t);
    for i := 0 to |DayNames|
      invariant result == Emit(DayNames[..i], t, Initial(t))
    {
      var day := DayNames[i];
      assert DayNames[..i + 1][..i] == DayNames[..i];
      if day in t.volumes.entries {
        var v, n := t.volumes.entries[day], Count(t.transactions, day);
        result := result.(days := result.days + [day], volumes := result.volumes + [v],
          transactions := result.transactions + [n],
          averageVolumeByDay := result.averageVolumeByDay[day := v],
          averageTransactionsByDay := result.averageTransactionsByDay[day := n]);
      }
    }
    assert DayNames[..|DayNames|] == DayNames;
  }

  /** The first loop of `weekday_trends`. */
  method AccumulateWeekdays(names: seq<string>, fs: map<string, FileContent>) returns (t: WeekdayTotals)
    ensures t == WeekdayTable(fs, names)
  {
    var volumes: Dict<real> := Empty();
    var transactions: Dict<nat> := Empty();
    for i := 0 to |names|
      invariant WeekdayTotals(volumes, transactions) == WeekdayTable(fs, names[..i])
    {
      assert names[..i + 1][..i] == names[..i];
      var e := FileWeekday(fs, names[i]);
      if e.Some? {
        var day, figures := e.v.0, e.v.1;
        volumes := AddVolume(volumes, day, figures.0);
        transactions := AddCount(transactions, day, figures.1);
      }
    }
    assert names[..|names|] == names;
    t := WeekdayTotals(volumes, transactions);
  }

  /** The body of that loop for one file: its key, the date `strptime` reads
      from it, the day name of its weekday, and the figures of the file. */
  method FileWeekday(fs: map<string, FileContent>, name: string) returns (e: Option<(string, (real, nat))>)
    ensures e == WeekdayEntry(fs, name)
  {
    var key := DateKey(name);
    if key.None? {
      return None;
    }
    var date := ParseYmd(key.v);
    if date.None? {
      return None;
    }
    var day := DayNames[Weekday(date.v)];
    var data: Option<FileData> := None;
    if name in fs {
      data := ProcessCsvFile(fs[name]);
    }
    if data.None? {
      return None;
    }
    e := Some((day, Figures(data.v)));
  }
}
