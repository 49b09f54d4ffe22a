/** `process_csv_file`: one CSV file in, either the file's counters and
    statistics or `None`. */
module Files {
  import opened Dicts
  import opened Rows
  import opened Tallies
  import opened Wrappers

  /** A transaction file as the reader sees it. `Unreadable` stands for every
      error of `open`, UTF-8 decoding or the CSV reader itself: each is caught by
      the outer handler and the file gives `None`. */
  datatype FileContent =
    | Readable(rows: seq<Row>)
    | Unreadable

  /** The derived figures of the result, exact (they are rounded to two
      decimals in the source, which is not modelled). */
  datatype Stats = Stats(
    successRate: real,
    averageVolume: real,
    averageAccessCount: real,
    totalVolume: real,
    uniqueUsers: nat)

  /** The dict `process_csv_file` returns: the counters and the figures. */
  datatype FileData = FileData(tally: Tally, stats: Stats)

  /** `pass / total * 100 if total > 0 else 0`. */
  function SuccessRate(pass: nat, total: nat): real {
    if total > 0 then (pass as real) / (total as real) * 100.0 else 0.0
  }

  /** A rate of passes among transactions is a percentage, 100 exactly when all
      passed and 0 exactly when none did (or there were none). */
  lemma SuccessRateBounds(pass: nat, total: nat)
    requires pass <= total
    ensures 0.0 <= SuccessRate(pass, total) <= 100.0
    ensures total > 0 ==> (SuccessRate(pass, total) == 100.0 <==> pass == total)
    ensures SuccessRate(pass, total) == 0.0 <==> pass == 0 || total == 0
  {
    if total > 0 {
      var q := (pass as real) / (total as real);
      assert q * (total as real) == pass as real;
      assert q <= 1.0 by {
        if q > 1.0 {
          assert q * (total as real) > total as real;
        }
      }
      assert q == 1.0 ==> pass == total;
    }
  }

  /** `s / n if n else 0`, the guarded averages. */
  function Average(s: real, n: nat): real {
    if n > 0 then s / (n as real) else 0.0
  }

  /** The figures computed after the row loop. */
  function StatsOf(t: Tally): Stats
    requires WellFormed(t)
  {
    Stats(
      SuccessRate(t.passCount, t.totalTransactions),
      Average(VolumeSum(t.userVolumes), |t.userVolumes.order|),
      Average(CountSum(t.userAccessCount) as real, |t.userAccessCount.order|),
      VolumeSum(t.userVolumes),
      |t.userVolumes.order|)
  }

  /** The accepted transactions of the rows, in order, or `None` once a row
      raises an exception other than `ValueError`. */
  function Scan(rows: seq<Row>): Option<seq<Transaction>> {
    if rows == [] then Some([])
    else
      match Scan(rows[..|rows| - 1])
      case None => None
      case Some(ts) =>
        match ParseRow(rows[|rows| - 1])
        case Aborted => None
        case Skipped => Some(ts)
        case Accepted(t) => Some(ts + [t])
  }

  /** How many rows are accepted. */
  function AcceptedRows(rows: seq<Row>): nat {
    if rows == [] then 0
    else AcceptedRows(rows[..|rows| - 1]) + (if ParseRow(rows[|rows| - 1]).Accepted? then 1 else 0)
  }

  /** The whole file is lost exactly when one of its rows aborts; otherwise one
      transaction per accepted row comes out, each with a non-empty user id and a
      volume of at least 0. */
  lemma {:induction false} ScanOutcome(rows: seq<Row>)
    ensures Scan(rows).None? <==> exists i :: 0 <= i < |rows| && ParseRow(rows[i]).Aborted?
    ensures Scan(rows).Some? ==> |Scan(rows).v| == AcceptedRows(rows) && AllAccepted(Scan(rows).v)
    decreases |rows|
  {
    if rows != [] {
      var init := rows[..|rows| - 1];
      ScanOutcome(init);
      if exists i :: 0 <= i < |init| && ParseRow(init[i]).Aborted? {
        var i :| 0 <= i < |init| && ParseRow(init[i]).Aborted?;
        assert rows[i] == init[i];
      }
      if exists i :: 0 <= i < |rows| && ParseRow(rows[i]).Aborted? {
        var i :| 0 <= i < |rows| && ParseRow(rows[i]).Aborted?;
        if i < |init| {
          assert init[i] == rows[i];
        }
      }
    }
  }

  /** One more row: it aborts the scan, is skipped, or adds its transaction. */
  lemma ScanStep(rows: seq<Row>, i: nat)
    requires i < |rows| && Scan(rows[..i]).Some?
    ensures ParseRow(rows[i]).Aborted? ==> Scan(rows[..i + 1]).None?
    ensures ParseRow(rows[i]).Skipped? ==> Scan(rows[..i + 1]) == Scan(rows[..i])
    ensures ParseRow(rows[i]).Accepted? ==> Scan(rows[..i + 1]) == Some(Scan(rows[..i]).v + [ParseRow(rows[i]).t])
  {
    assert rows[..i + 1][..i] == rows[..i];
    assert rows[..i + 1][i] == rows[i];
  }

  /** An aborting row ends the scan with `None`, whatever follows it. */
  lemma {:induction false} ScanStaysAborted(rows: seq<Row>, n: nat)
    requires n <= |rows| && Scan(rows[..n]).None?
    ensures Scan(rows).None?
    decreases |rows|
  {
    if n < |rows| {
      var init := rows[..|rows| - 1];
      assert init[..n] == rows[..n];
      ScanStaysAborted(init, n);
    } else {
      assert rows[..n] == rows;
    }
  }

  /** What `process_csv_file` returns for a file's content. */
  function ProcessFile(c: FileContent): (r: Option<FileData>)
    ensures r.Some? ==> WellFormed(r.v.tally) && r.v.tally.totalTransactions > 0
  {
    if c.Unreadable? then None
    else
      match Scan(c.rows)
      case None => None
      case Some(ts) =>
        if |ts| == 0 then None
        else
          TallyOfWellFormed(ts);
          TallyOfTotal(ts);
          Some(FileData(TallyOf(ts), StatsOf(TallyOf(ts))))
  }

  /** `process_csv_file` gives `None` exactly for an unreadable file, a file with
      an aborting row, and a file in which no row is accepted. */
  lemma ProcessFileNone(c: FileContent)
    ensures ProcessFile(c).None? <==>
      || c.Unreadable?
      || (exists i :: 0 <= i < |c.rows| && ParseRow(c.rows[i]).Aborted?)
      || AcceptedRows(c.rows) == 0
  {
    if c.Readable? {
      ScanOutcome(c.rows);
      if Scan(c.rows).Some? {
        TallyOfTotal(Scan(c.rows).v);
      }
    }
  }

  /** The per-file conservation laws of a file that yields data: it has at least
      one transaction, pass + fail = total, the access counts and the histogram
      sum to the total, the user volumes to the individual volumes, there are no
      more users than transactions, and the success rate is a percentage. */
  lemma ProcessFileConserves(c: FileContent)
    requires ProcessFile(c).Some?
    ensures var d := ProcessFile(c).v;
      && Consistent(d.tally)
      && d.tally.totalTransactions == AcceptedRows(c.rows) > 0
      && d.tally.passCount + d.tally.failCount == d.tally.totalTransactions
      && CountSum(d.tally.userAccessCount) == d.tally.totalTransactions
      && CountSum(d.tally.volumeDistribution) == d.tally.totalTransactions
      && d.stats.totalVolume == Sum(d.tally.individualVolumes)
      && d.stats.uniqueUsers == |d.tally.userVolumes.entries| <= d.tally.totalTransactions
      && 0.0 <= d.stats.successRate <= 100.0
  {
    var ts := Scan(c.rows).v;
    var t := TallyOf(ts);
    ScanOutcome(c.rows);
    TallyOfConsistent(ts);
    TallyOfVolumes(ts);
    OrderCardinality(t.userVolumes);
    SumCountsAtLeastLength(t.userAccessCount.order, t.userAccessCount.entries);
    SuccessRateBounds(t.passCount, t.totalTransactions);
  }

  /** The body of the row loop for an accepted row: every counter it touches is
      updated the way `AddTransaction` describes. */
  method CountRow(t: Transaction, userVolumes: Dict<real>, userAccessCount: Dict<nat>,
    totalTransactions: nat, passCount: nat, failCount: nat, kioskActivity: Dict<nat>,
    volumeDistribution: Dict<nat>, individualVolumes: seq<real>)
    returns (userVolumes': Dict<real>, userAccessCount': Dict<nat>,
      totalTransactions': nat, passCount': nat, failCount': nat, kioskActivity': Dict<nat>,
      volumeDistribution': Dict<nat>, individualVolumes': seq<real>)
    ensures Tally(userVolumes', userAccessCount', totalTransactions', passCount', failCount',
      kioskActivity', volumeDistribution', individualVolumes') ==
      AddTransaction(Tally(userVolumes, userAccessCount, totalTransactions, passCount, failCount,
        kioskActivity, volumeDistribution, individualVolumes), t)
  {
    userVolumes' := AddVolume(userVolumes, t.userId, t.volume);
    userAccessCount' := AddCount(userAccessCount, t.userId, 1);
    totalTransactions' := totalTransactions + 1;
    individualVolumes' := individualVolumes + [t.volume];
    volumeDistribution' := AddCount(volumeDistribution, VolumeBucket(t.volume), 1);
    passCount', failCount' := passCount, failCount;
    if t.response == "PASS" {
      passCount' := passCount + 1;
    } else {
      failCount' := failCount + 1;
    }
    kioskActivity' := kioskActivity;
    if t.client != [] {
      kioskActivity' := AddCount(kioskActivity, t.client, 1);
    }
  }

  /** The row loop of `process_csv_file`: the counters start empty and are
      updated in place row by row; a row that raises anything but `ValueError`
      ends the loop, and the file, with `None`. */
  method CountRows(rows: seq<Row>) returns (r: Option<Tally>)
    ensures r.Some? <==> Scan(rows).Some?
    ensures r.Some? ==> r.v == TallyOf(Scan(rows).v)
  {
    var userVolumes: Dict<real> := Empty();
    var userAccessCount: Dict<nat> := Empty();
    var totalTransactions := 0;
    var passCount := 0;
    var failCount := 0;
    var kioskActivity: Dict<nat> := Empty();
    var volumeDistribution: Dict<nat> := Empty();
    var individualVolumes: seq<real> := [];
    var i := 0;
    ghost var accepted: seq<Transaction> := [];
    while i < |rows|
      invariant i <= |rows|
      invariant Scan(rows[..i]) == Some(accepted)
      invariant Tally(userVolumes, userAccessCount, totalTransactions, passCount, failCount,
        kioskActivity, volumeDistribution, individualVolumes) == TallyOf(accepted)
    {
      var outcome := ParseRow(rows[i]);
      ScanStep(rows, i);
      if outcome.Aborted? {
        ScanStaysAborted(rows, i + 1);
        return None;
      } else if outcome.Accepted? {
        var t := outcome.t;
        userVolumes, userAccessCount, totalTransactions, passCount, failCount,
          kioskActivity, volumeDistribution, individualVolumes :=
          CountRow(t, userVolumes, userAccessCount, totalTransactions, passCount, failCount,
            kioskActivity, volumeDistribution, individualVolumes);
        TallyOfSnoc(accepted, t);
        accepted := accepted + [t];
      }
      i := i + 1;
    }
    assert rows[..i] == rows;
    r := Some(Tally(userVolumes, userAccessCount, totalTransactions, passCount, failCount,
      kioskActivity, volumeDistribution, individualVolumes));
  }

  /** `process_csv_file(file_path)`: the row loop, then `None` for a file without
      accepted rows, else the counters with the figures derived from them. */
  method ProcessCsvFile(c: FileContent) returns (r: Option<FileData>)
    ensures r == ProcessFile(c)
  {
    if c.Unreadable? {
      return None;
    }
    var counted := CountRows(c.rows);
    if counted.None? {
      return None;
    }
    var tally := counted.v;
    TallyOfTotal(Scan(c.rows).v);
    if tally.totalTransactions == 0 {
      return None;
    }
    TallyOfWellFormed(Scan(c.rows).v);
    var successRate := SuccessRate(tally.passCount, tally.totalTransactions);
    var totalVolume := VolumeSum(tally.userVolumes);
    var uniqueUsers := |tally.userVolumes.order|;
    var averageVolume := Average(totalVolume, uniqueUsers);
    var averageAccessCount := Average(CountSum(tally.userAccessCount) as real, |tally.userAccessCount.order|);
    r := Some(FileData(tally, Stats(successRate, averageVolume, averageAccessCount, totalVolume, uniqueUsers)));
  }
}
