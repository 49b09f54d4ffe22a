/** One CSV row of a transaction file, and what `process_csv_file` makes of it:
    a transaction that is counted, a row that is skipped, or an error that makes
    the whole file yield no data. Also the 100 ml histogram buckets. */
module Rows {
  import opened Text

  /** A cell as `row.get(column, default)` of `csv.DictReader` returns it. */
  datatype Cell<T> =
    | NoColumn      // the header has no such column: `get` returns its default
    | NoValue       // the row is shorter than the header: the reader fills in `None`
    | Value(v: T)

  /** `float(text)`, taken as given: either a number or a `ValueError`. */
  datatype VolumeParse = Unparsable | Number(v: real)

  /** The columns the analytics code reads (it never reads `Timestamp`). */
  datatype Row = Row(
    userId: Cell<string>,
    volumeMl: Cell<VolumeParse>,
    response: Cell<string>,
    clientName: Cell<string>)

  /** An accepted row: trimmed user id, volume, trimmed upper-cased response, trimmed client. */
  datatype Transaction = Transaction(userId: string, volume: real, response: string, client: string)

  datatype RowOutcome =
    | Accepted(t: Transaction)
    | Skipped     // `continue` after a `ValueError`, or the row fails the user/volume test
    | Aborted     // any other exception: `process_csv_file` returns `None`

  /** The text of a string cell; `get(column, '')` gives '' for a missing column. */
  function CellText(c: Cell<string>): string {
    if c.Value? then c.v else ""
  }

  /** `response.strip().upper()`. */
  function NormalizeResponse(s: string): string {
    Upper(Trim(s))
  }

  /** The four reads of the row happen in this order, and the first failing one decides:
      `None.strip()` or `float(None)` aborts the file, a `ValueError` from `float`
      skips the row, before `Response` and `Client_Name` are looked at. */
  function ParseRow(row: Row): (o: RowOutcome)
    ensures o.Aborted? <==>
      || row.userId.NoValue? || row.volumeMl.NoValue?
      || (row.volumeMl != Value(Unparsable) && (row.response.NoValue? || row.clientName.NoValue?))
    ensures !row.userId.NoValue? && row.volumeMl == Value(Unparsable) ==> o.Skipped?
    ensures o.Accepted? ==>
      && o.t.userId != [] && !IsSpace(o.t.userId[0]) && !IsSpace(o.t.userId[|o.t.userId| - 1])
      && o.t.volume >= 0.0
      && (row.volumeMl.NoColumn? ==> o.t.volume == 0.0)
      && (row.volumeMl.Value? ==> row.volumeMl.v == Number(o.t.volume))
  {
    if row.userId.NoValue? then Aborted
    else if row.volumeMl.NoValue? then Aborted
    else if row.volumeMl == Value(Unparsable) then Skipped
    else if row.response.NoValue? || row.clientName.NoValue? then Aborted
    else
      var user := Trim(CellText(row.userId));
      var volume := if row.volumeMl.NoColumn? then 0.0 else row.volumeMl.v.v;
      if user != [] && volume >= 0.0 then
        Accepted(Transaction(user, volume, NormalizeResponse(CellText(row.response)), Trim(CellText(row.clientName))))
      else Skipped
  }

  /** The acceptance rule for a row whose cells can all be read: it is counted exactly
      when its trimmed user id is not empty and its volume is a number at least 0
      (a file without a `Volume_ML` column counts every such row with volume 0). */
  lemma AcceptanceRule(row: Row)
    requires !row.userId.NoValue? && !row.response.NoValue? && !row.clientName.NoValue?
    ensures ParseRow(row).Accepted? <==>
      && Trim(CellText(row.userId)) != []
      && (row.volumeMl.NoColumn? || (row.volumeMl.Value? && row.volumeMl.v.Number? && row.volumeMl.v.v >= 0.0))
  {
  }

  /** Only an exact "PASS", ignoring surrounding whitespace and the case of ASCII
      letters, is a pass; "PASSED", "OK", "" and everything else count as failures. */
  lemma {:induction false} PassRule(pre: string, w: string, post: string)
    requires AllSpace(pre) && AllSpace(post) && IsAscii(w)
    requires w == [] || (!IsSpace(w[0]) && !IsSpace(w[|w| - 1]))
    ensures NormalizeResponse(pre + w + post) == "PASS" <==> IsPassWord(w)
  {
    TrimPadded(pre, w, post);
    UpperIsPass(w);
  }

  /** `w` spells PASS in any mix of upper- and lower-case letters. */
  predicate IsPassWord(w: string) {
    && |w| == 4
    && (w[0] == 'P' || w[0] == 'p') && (w[1] == 'A' || w[1] == 'a')
    && (w[2] == 'S' || w[2] == 's') && (w[3] == 'S' || w[3] == 's')
  }

  lemma UpperIsPass(w: string)
    requires IsAscii(w)
    ensures Upper(w) == "PASS" <==> IsPassWord(w)
  {
    UpperAscii(w);
    var u := Upper(w);
    if |w| == 4 {
      UpperAsciiLetter(w[0], 'P');
      UpperAsciiLetter(w[1], 'A');
      UpperAsciiLetter(w[2], 'S');
      UpperAsciiLetter(w[3], 'S');
      assert u == "PASS" <==> u[0] == 'P' && u[1] == 'A' && u[2] == 'S' && u[3] == 'S';
    } else {
      assert |u| != |"PASS"|;
    }
  }

  // ---------------------------------------------------------------- histogram

  /** The keys of `volume_distribution`, lowest bucket first. */
  const BucketLabels: seq<string> := [
    "0-100ml", "101-200ml", "201-300ml", "301-400ml", "401-500ml",
    "501-600ml", "601-700ml", "701-800ml", "801-900ml", "901-1000ml", "1000ml+"]

  /** The bucket of an accepted volume: the chain of `<=` tests of the source. */
  function VolumeBucket(volume: real): string {
    if volume <= 100.0 then "0-100ml"
    else if volume <= 200.0 then "101-200ml"
    else if volume <= 300.0 then "201-300ml"
    else if volume <= 400.0 then "301-400ml"
    else if volume <= 500.0 then "401-500ml"
    else if volume <= 600.0 then "501-600ml"
    else if volume <= 700.0 then "601-700ml"
    else if volume <= 800.0 then "701-800ml"
    else if volume <= 900.0 then "801-900ml"
    else if volume <= 1000.0 then "901-1000ml"
    else "1000ml+"
  }

  /** Bucket `b` holds the volumes in (100 b, 100 (b + 1)], the first one also 0, and the
      last one everything above 1000. */
  ghost predicate InBucket(volume: real, b: nat) {
    || (b == 0 && 0.0 <= volume <= 100.0)
    || (1 <= b <= 9 && 100.0 * (b as real) < volume <= 100.0 * (b as real + 1.0))
    || (b == 10 && volume > 1000.0)
  }

  /** The buckets do not overlap. */
  lemma InBucketUnique(volume: real, i: nat, b: nat)
    requires InBucket(volume, i) && InBucket(volume, b)
    ensures i == b
  {
  }

  /** Every accepted volume lands in exactly one bucket, and its label is that of the
      100 ml range it lies in, the upper edge included: 100 is in "0-100ml", 1000 in
      "901-1000ml", anything above 1000 in "1000ml+". */
  lemma BucketIsUpperInclusive(volume: real, b: nat)
    requires volume >= 0.0 && b < |BucketLabels|
    ensures VolumeBucket(volume) == BucketLabels[b] <==> InBucket(volume, b)
  {
    var i :| 0 <= i < |BucketLabels| && VolumeBucket(volume) == BucketLabels[i] && InBucket(volume, i) by {
      BucketWitness(volume);
    }
    if InBucket(volume, b) {
      InBucketUnique(volume, i, b);
    } else {
      assert i != b;
      assert BucketLabels[i] != BucketLabels[b];
    }
  }

  lemma BucketWitness(volume: real)
    requires volume >= 0.0
    ensures exists i :: 0 <= i < |BucketLabels| && VolumeBucket(volume) == BucketLabels[i] && InBucket(volume, i)
  {
    if volume <= 100.0 { assert InBucket(volume, 0); }
    else if volume <= 200.0 { assert InBucket(volume, 1); }
    else if volume <= 300.0 { assert InBucket(volume, 2); }
    else if volume <= 400.0 { assert InBucket(volume, 3); }
    else if volume <= 500.0 { assert InBucket(volume, 4); }
    else if volume <= 600.0 { assert InBucket(volume, 5); }
    else if volume <= 700.0 { assert InBucket(volume, 6); }
    else if volume <= 800.0 { assert InBucket(volume, 7); }
    else if volume <= 900.0 { assert InBucket(volume, 8); }
    else if volume <= 1000.0 { assert InBucket(volume, 9); }
    else { assert InBucket(volume, 10); }
  }

  /** Every label the bucket function produces is one of the eleven labels. */
  lemma BucketIsLabel(volume: real)
    ensures VolumeBucket(volume) in BucketLabels
  {
  }
}
