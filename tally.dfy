/** The counters that `process_csv_file` fills row by row and that `analyze_data`
    merges file by file: per-user volume and access count, the transaction,
    pass and fail counters, per-client activity, the 100 ml histogram and the
    list of individual volumes. */
module Tallies {
  import opened Dicts
  import opened Rows

  datatype Tally = Tally(
    userVolumes: Dict<real>,
    userAccessCount: Dict<nat>,
    totalTransactions: nat,
    passCount: nat,
    failCount: nat,
    kioskActivity: Dict<nat>,
    volumeDistribution: Dict<nat>,
    individualVolumes: seq<real>)

  /** The fresh `defaultdict`s, zero counters and empty list of either loop. */
  function EmptyTally(): Tally {
    Tally(Empty(), Empty(), 0, 0, 0, Empty(), Empty(), [])
  }

  lemma EmptyTallyConsistent()
    ensures Consistent(EmptyTally())
  {
    var t := EmptyTally();
    assert CountSum(t.userAccessCount) == 0 && CountSum(t.volumeDistribution) == 0;
    assert CountSum(t.kioskActivity) == 0;
    assert VolumeSum(t.userVolumes) == 0.0 == Sum(t.individualVolumes);
    forall bucket ensures Count(t.volumeDistribution, bucket) == 0 == BucketCount(t.individualVolumes, bucket) {
    }
  }

  /** `sum(volumes)`. */
  function Sum(vs: seq<real>): real {
    if vs == [] then 0.0 else Sum(vs[..|vs| - 1]) + vs[|vs| - 1]
  }

  /** How many of the volumes fall in the histogram bucket `bucket`. */
  function BucketCount(vs: seq<real>, bucket: string): nat {
    if vs == [] then 0
    else BucketCount(vs[..|vs| - 1], bucket) + (if VolumeBucket(vs[|vs| - 1]) == bucket then 1 else 0)
  }

  lemma {:induction false} SumConcat(p: seq<real>, q: seq<real>)
    ensures Sum(p + q) == Sum(p) + Sum(q)
    decreases |q|
  {
    if q == [] {
      assert p + q == p;
    } else {
      assert (p + q)[..|p + q| - 1] == p + q[..|q| - 1];
      SumConcat(p, q[..|q| - 1]);
    }
  }

  lemma {:induction false} BucketCountConcat(p: seq<real>, q: seq<real>, bucket: string)
    ensures BucketCount(p + q, bucket) == BucketCount(p, bucket) + BucketCount(q, bucket)
    decreases |q|
  {
    if q == [] {
      assert p + q == p;
    } else {
      assert (p + q)[..|p + q| - 1] == p + q[..|q| - 1];
      BucketCountConcat(p, q[..|q| - 1], bucket);
    }
  }

  /** The dicts are well-formed, which is all that iterating over them needs. */
  ghost predicate WellFormed(t: Tally) {
    && Valid(t.userVolumes) && Valid(t.userAccessCount)
    && Valid(t.kioskActivity) && Valid(t.volumeDistribution)
  }

  /** What holds of the counters after any number of accepted rows, in one file
      or in several merged ones. */
  ghost predicate Consistent(t: Tally) {
    WellFormed(t) && Conserved(t) && KeysAccepted(t) && HistogramMatches(t)
  }

  /** The conservation laws: pass + fail = total, one individual volume per
      transaction, the access counts and the histogram each sum to the total,
      the per-client counts to at most the total, and the per-user volumes to
      the sum of the individual volumes. */
  ghost predicate Conserved(t: Tally)
    requires WellFormed(t)
  {
    // `user_volumes` and `user_access_count` are always updated together
    && t.userVolumes.order == t.userAccessCount.order
    && t.passCount + t.failCount == t.totalTransactions
    && |t.individualVolumes| == t.totalTransactions
    && CountSum(t.userAccessCount) == t.totalTransactions
    && CountSum(t.volumeDistribution) == t.totalTransactions
    && CountSum(t.kioskActivity) <= t.totalTransactions
    && VolumeSum(t.userVolumes) == Sum(t.individualVolumes)
  }

  /** Every key and volume comes from an accepted row: user ids and clients are
      not empty, every user has at least one access, volumes are at least 0 and
      the histogram has only the eleven bucket labels. */
  ghost predicate KeysAccepted(t: Tally) {
    && (forall u :: u in t.userAccessCount.entries ==> u != [] && t.userAccessCount.entries[u] >= 1)
    && (forall c :: c in t.kioskActivity.entries ==> c != [])
    && (forall i :: 0 <= i < |t.individualVolumes| ==> t.individualVolumes[i] >= 0.0)
    && (forall bucket :: bucket in t.volumeDistribution.entries ==> bucket in BucketLabels)
  }

  /** Each histogram bucket counts exactly the individual volumes that fall in it. */
  ghost predicate HistogramMatches(t: Tally) {
    forall bucket :: Count(t.volumeDistribution, bucket) == BucketCount(t.individualVolumes, bucket)
  }

  /** The body of the `if user_id and volume >= 0` branch for one accepted row. */
  function AddTransaction(t: Tally, x: Transaction): Tally {
    var pass := x.response == "PASS";
    Tally(
      AddVolume(t.userVolumes, x.userId, x.volume),
      AddCount(t.userAccessCount, x.userId, 1),
      t.totalTransactions + 1,
      if pass then t.passCount + 1 else t.passCount,
      if pass then t.failCount else t.failCount + 1,
      if x.client != [] then AddCount(t.kioskActivity, x.client, 1) else t.kioskActivity,
      AddCount(t.volumeDistribution, VolumeBucket(x.volume), 1),
      t.individualVolumes + [x.volume])
  }

  /** Counting an accepted row keeps every conservation law, and each bucket
      still counts its volumes. */
  lemma AddTransactionConsistent(t: Tally, x: Transaction)
    requires Consistent(t)
    requires x.userId != [] && x.volume >= 0.0
    ensures Consistent(AddTransaction(t, x))
  {
    AddTransactionConserved(t, x);
    AddTransactionKeys(t, x);
    AddTransactionHistogram(t, x);
  }

  lemma AddTransactionWellFormed(t: Tally, x: Transaction)
    requires WellFormed(t)
    ensures WellFormed(AddTransaction(t, x))
  {
    AddCountOthers(t.userAccessCount, x.userId, 1);
    AddCountOthers(t.volumeDistribution, VolumeBucket(x.volume), 1);
    AddCountOthers(t.kioskActivity, x.client, 1);
    AddVolumeOthers(t.userVolumes, x.userId, x.volume);
  }

  lemma AddTransactionConserved(t: Tally, x: Transaction)
    requires WellFormed(t) && Conserved(t)
    ensures WellFormed(AddTransaction(t, x)) && Conserved(AddTransaction(t, x))
  {
    var r := AddTransaction(t, x);
    AddTransactionSums(t, x);
    assert r.individualVolumes == t.individualVolumes + [x.volume];
    assert r.individualVolumes[..|t.individualVolumes|] == t.individualVolumes;
    assert Sum(r.individualVolumes) == Sum(t.individualVolumes) + x.volume;
  }

  /** One transaction adds one to the access counts and to the histogram, at
      most one to the client activity, and its volume to the user volumes. */
  lemma AddTransactionSums(t: Tally, x: Transaction)
    requires WellFormed(t)
    ensures WellFormed(AddTransaction(t, x))
    ensures CountSum(AddTransaction(t, x).userAccessCount) == CountSum(t.userAccessCount) + 1
    ensures CountSum(AddTransaction(t, x).volumeDistribution) == CountSum(t.volumeDistribution) + 1
    ensures CountSum(AddTransaction(t, x).kioskActivity) <= CountSum(t.kioskActivity) + 1
    ensures VolumeSum(AddTransaction(t, x).userVolumes) == VolumeSum(t.userVolumes) + x.volume
  {
    AddTransactionWellFormed(t, x);
    CountSumAdd(t.userAccessCount, x.userId, 1);
    CountSumAdd(t.volumeDistribution, VolumeBucket(x.volume), 1);
    VolumeSumAdd(t.userVolumes, x.userId, x.volume);
    if x.client != [] {
      CountSumAdd(t.kioskActivity, x.client, 1);
    }
  }

  lemma AddTransactionKeys(t: Tally, x: Transaction)
    requires KeysAccepted(t)
    requires x.userId != [] && x.volume >= 0.0
    ensures KeysAccepted(AddTransaction(t, x))
  {
    AddCountOthers(t.userAccessCount, x.userId, 1);
    AddCountOthers(t.volumeDistribution, VolumeBucket(x.volume), 1);
    AddCountOthers(t.kioskActivity, x.client, 1);
    BucketIsLabel(x.volume);
  }

  lemma AddTransactionHistogram(t: Tally, x: Transaction)
    requires HistogramMatches(t)
    ensures HistogramMatches(AddTransaction(t, x))
  {
    var r := AddTransaction(t, x);
    AddCountOthers(t.volumeDistribution, VolumeBucket(x.volume), 1);
    assert r.individualVolumes[..|r.individualVolumes| - 1] == t.individualVolumes;
  }

  /** The counters after the accepted rows `ts` of one file, in order. */
  function TallyOf(ts: seq<Transaction>): Tally {
    if ts == [] then EmptyTally() else AddTransaction(TallyOf(ts[..|ts| - 1]), ts[|ts| - 1])
  }

  lemma TallyOfSnoc(ts: seq<Transaction>, x: Transaction)
    ensures TallyOf(ts + [x]) == AddTransaction(TallyOf(ts), x)
  {
    assert (ts + [x])[..|ts|] == ts;
  }

  ghost predicate AllAccepted(ts: seq<Transaction>) {
    forall i :: 0 <= i < |ts| ==> ts[i].userId != [] && ts[i].volume >= 0.0
  }

  lemma {:induction false} TallyOfConsistent(ts: seq<Transaction>)
    requires AllAccepted(ts)
    ensures Consistent(TallyOf(ts))
    decreases |ts|
  {
    if ts == [] {
      EmptyTallyConsistent();
    } else {
      var init := ts[..|ts| - 1];
      assert AllAccepted(init) by {
        forall i | 0 <= i < |init| ensures init[i].userId != [] && init[i].volume >= 0.0 {
          assert init[i] == ts[i];
        }
      }
      TallyOfConsistent(init);
      AddTransactionConsistent(TallyOf(init), ts[|ts| - 1]);
    }
  }

  /** Whatever the rows, the fold leaves every dict well-formed. */
  lemma {:induction false} TallyOfWellFormed(ts: seq<Transaction>)
    ensures WellFormed(TallyOf(ts))
    decreases |ts|
  {
    if ts != [] {
      TallyOfWellFormed(ts[..|ts| - 1]);
      AddTransactionWellFormed(TallyOf(ts[..|ts| - 1]), ts[|ts| - 1]);
    }
  }

  /** One transaction per accepted row. */
  lemma {:induction false} TallyOfTotal(ts: seq<Transaction>)
    ensures TallyOf(ts).totalTransactions == |ts|
    decreases |ts|
  {
    if ts != [] {
      TallyOfTotal(ts[..|ts| - 1]);
    }
  }

  /** Counting a row adds one transaction and appends its volume. */
  lemma AddTransactionAppends(t: Tally, x: Transaction)
    ensures AddTransaction(t, x).totalTransactions == t.totalTransactions + 1
    ensures AddTransaction(t, x).individualVolumes == t.individualVolumes + [x.volume]
  {
  }

  /** One transaction per accepted row, and the individual volumes are the rows' volumes in order. */
  lemma {:induction false} TallyOfVolumes(ts: seq<Transaction>)
    ensures TallyOf(ts).totalTransactions == |ts|
    ensures |TallyOf(ts).individualVolumes| == |ts|
    ensures forall i :: 0 <= i < |ts| ==> TallyOf(ts).individualVolumes[i] == ts[i].volume
    decreases |ts|
  {
    if ts != [] {
      var init := ts[..|ts| - 1];
      TallyOfVolumes(init);
      var v := TallyOf(init).individualVolumes;
      AddTransactionAppends(TallyOf(init), ts[|ts| - 1]);
      assert TallyOf(ts).individualVolumes == v + [ts[|ts| - 1].volume];
      forall i | 0 <= i < |ts| ensures TallyOf(ts).individualVolumes[i] == ts[i].volume {
        if i < |ts| - 1 {
          assert ts[i] == init[i];
        }
      }
    }
  }

  // ------------------------------------------------- per-key reference counts

  /** How many of the transactions were made by user `u`. */
  function Visits(ts: seq<Transaction>, u: string): nat {
    if ts == [] then 0 else Visits(ts[..|ts| - 1], u) + (if ts[|ts| - 1].userId == u then 1 else 0)
  }

  /** The volume user `u` drew over the transactions. */
  function UserVolume(ts: seq<Transaction>, u: string): real {
    if ts == [] then 0.0 else UserVolume(ts[..|ts| - 1], u) + (if ts[|ts| - 1].userId == u then ts[|ts| - 1].volume else 0.0)
  }

  /** How many of the transactions were served by client `c`. */
  function ClientVisits(ts: seq<Transaction>, c: string): nat {
    if ts == [] then 0 else ClientVisits(ts[..|ts| - 1], c) + (if ts[|ts| - 1].client == c then 1 else 0)
  }

  /** How many of the transactions had the response "PASS". */
  function Passes(ts: seq<Transaction>): nat {
    if ts == [] then 0 else Passes(ts[..|ts| - 1]) + (if ts[|ts| - 1].response == "PASS" then 1 else 0)
  }

  /** A user's access count is the number of their transactions, and they are a
      key exactly when they made one. */
  lemma {:induction false} TallyOfVisits(ts: seq<Transaction>, u: string)
    ensures Count(TallyOf(ts).userAccessCount, u) == Visits(ts, u)
    ensures u in TallyOf(ts).userAccessCount.entries <==> Visits(ts, u) > 0
    decreases |ts|
  {
    if ts != [] {
      var init, x := ts[..|ts| - 1], ts[|ts| - 1];
      TallyOfVisits(init, u);
      AddCountOthers(TallyOf(init).userAccessCount, x.userId, 1);
    }
  }

  /** A user's volume is the sum of the volumes of their transactions. */
  lemma {:induction false} TallyOfUserVolume(ts: seq<Transaction>, u: string)
    ensures Volume(TallyOf(ts).userVolumes, u) == UserVolume(ts, u)
    decreases |ts|
  {
    if ts != [] {
      var init, x := ts[..|ts| - 1], ts[|ts| - 1];
      TallyOfUserVolume(init, u);
      AddVolumeOthers(TallyOf(init).userVolumes, x.userId, x.volume);
    }
  }

  /** A client's activity is its number of transactions; the empty client is never counted. */
  lemma {:induction false} TallyOfClientVisits(ts: seq<Transaction>, c: string)
    ensures c != [] ==> Count(TallyOf(ts).kioskActivity, c) == ClientVisits(ts, c)
    ensures [] !in TallyOf(ts).kioskActivity.entries
    decreases |ts|
  {
    if ts != [] {
      var init, x := ts[..|ts| - 1], ts[|ts| - 1];
      TallyOfClientVisits(init, c);
      assert TallyOf(ts) == AddTransaction(TallyOf(init), x);
      AddTransactionClient(TallyOf(init), x, c);
    }
  }

  /** One transaction adds one to its own client's activity and to no other. */
  lemma AddTransactionClient(t: Tally, x: Transaction, c: string)
    ensures c != [] ==> Count(AddTransaction(t, x).kioskActivity, c) == Count(t.kioskActivity, c) + (if x.client == c then 1 else 0)
    ensures [] !in t.kioskActivity.entries ==> [] !in AddTransaction(t, x).kioskActivity.entries
  {
    AddCountOthers(t.kioskActivity, x.client, 1);
  }

  /** The pass count is the number of "PASS" responses, and every other response is a failure. */
  lemma {:induction false} TallyOfPasses(ts: seq<Transaction>)
    ensures TallyOf(ts).passCount == Passes(ts)
    ensures TallyOf(ts).failCount == |ts| - Passes(ts)
    decreases |ts|
  {
    if ts != [] {
      TallyOfPasses(ts[..|ts| - 1]);
    }
  }

  // ------------------------------------------------------------------ merging

  /** `for k, n in items: d[k] += n`, over the keys in the given order. */
  function AddCounts(d: Dict<nat>, keys: seq<string>, m: map<string, nat>): (r: Dict<nat>)
    requires Valid(d) && forall k :: k in keys ==> k in m
    ensures Valid(r)
    ensures forall k :: k in r.entries <==> k in d.entries || k in keys
    ensures r.order == TouchAll(d.order, keys)
    decreases |keys|
  {
    if keys == [] then d
    else
      var init, last := keys[..|keys| - 1], keys[|keys| - 1];
      PrefixMembers(keys);
      var d' := AddCounts(d, init, m);
      AddCountOthers(d', last, m[last]);
      AddCount(d', last, m[last])
  }

  /** `for k, v in items: d[k] += v`, over the keys in the given order. */
  function AddVolumes(d: Dict<real>, keys: seq<string>, m: map<string, real>): (r: Dict<real>)
    requires Valid(d) && forall k :: k in keys ==> k in m
    ensures Valid(r)
    ensures forall k :: k in r.entries <==> k in d.entries || k in keys
    ensures r.order == TouchAll(d.order, keys)
    decreases |keys|
  {
    if keys == [] then d
    else
      var init, last := keys[..|keys| - 1], keys[|keys| - 1];
      PrefixMembers(keys);
      var d' := AddVolumes(d, init, m);
      AddVolumeOthers(d', last, m[last]);
      AddVolume(d', last, m[last])
  }

  /** One more key merged: the last key's value is added to the dict of the others. */
  lemma AddCountsStep(d: Dict<nat>, keys: seq<string>, m: map<string, nat>)
    requires Valid(d) && keys != [] && forall k :: k in keys ==> k in m
    ensures forall k :: k in keys[..|keys| - 1] ==> k in m
    ensures AddCounts(d, keys, m) == AddCount(AddCounts(d, keys[..|keys| - 1], m), keys[|keys| - 1], m[keys[|keys| - 1]])
  {
    PrefixMembers(keys);
  }

  lemma AddVolumesStep(d: Dict<real>, keys: seq<string>, m: map<string, real>)
    requires Valid(d) && keys != [] && forall k :: k in keys ==> k in m
    ensures forall k :: k in keys[..|keys| - 1] ==> k in m
    ensures AddVolumes(d, keys, m) == AddVolume(AddVolumes(d, keys[..|keys| - 1], m), keys[|keys| - 1], m[keys[|keys| - 1]])
  {
    PrefixMembers(keys);
  }

  lemma PrefixMembers(keys: seq<string>)
    requires keys != []
    ensures forall k :: k in keys <==> k in keys[..|keys| - 1] || k == keys[|keys| - 1]
  {
    assert keys == keys[..|keys| - 1] + [keys[|keys| - 1]];
  }

  /** Adding the items of a dict with distinct keys adds each key's value to its counter. */
  lemma {:induction false} AddCountsPerKey(d: Dict<nat>, keys: seq<string>, m: map<string, nat>, k: string)
    requires Valid(d) && Distinct(keys) && forall j :: j in keys ==> j in m
    ensures Count(AddCounts(d, keys, m), k) == Count(d, k) + (if k in keys then m[k] else 0)
    decreases |keys|
  {
    if keys != [] {
      var init := keys[..|keys| - 1];
      assert forall j :: j in init ==> j in keys;
      assert k == keys[|keys| - 1] ==> k !in init;
      AddCountsPerKey(d, init, m, k);
    }
  }

  lemma {:induction false} AddVolumesPerKey(d: Dict<real>, keys: seq<string>, m: map<string, real>, k: string)
    requires Valid(d) && Distinct(keys) && forall j :: j in keys ==> j in m
    ensures Volume(AddVolumes(d, keys, m), k) == Volume(d, k) + (if k in keys then m[k] else 0.0)
    decreases |keys|
  {
    if keys != [] {
      var init := keys[..|keys| - 1];
      assert forall j :: j in init ==> j in keys;
      assert k == keys[|keys| - 1] ==> k !in init;
      AddVolumesPerKey(d, init, m, k);
    }
  }

  /** Adding items raises `sum(d.values())` by the sum of the items' values. */
  lemma {:induction false} AddCountsSum(d: Dict<nat>, keys: seq<string>, m: map<string, nat>)
    requires Valid(d) && forall j :: j in keys ==> j in m
    ensures CountSum(AddCounts(d, keys, m)) == CountSum(d) + SumCounts(keys, m)
    decreases |keys|
  {
    if keys != [] {
      var init, last := keys[..|keys| - 1], keys[|keys| - 1];
      assert forall j :: j in init ==> j in keys;
      AddCountsSum(d, init, m);
      CountSumAdd(AddCounts(d, init, m), last, m[last]);
    }
  }

  lemma {:induction false} AddVolumesSum(d: Dict<real>, keys: seq<string>, m: map<string, real>)
    requires Valid(d) && forall j :: j in keys ==> j in m
    ensures VolumeSum(AddVolumes(d, keys, m)) == VolumeSum(d) + SumVolumes(keys, m)
    decreases |keys|
  {
    if keys != [] {
      var init, last := keys[..|keys| - 1], keys[|keys| - 1];
      assert forall j :: j in init ==> j in keys;
      AddVolumesSum(d, init, m);
      VolumeSumAdd(AddVolumes(d, init, m), last, m[last]);
    }
  }

  /** The insertion order after updating the keys in turn. */
  function TouchAll(order: seq<string>, keys: seq<string>): seq<string> {
    if keys == [] then order else Touch(TouchAll(order, keys[..|keys| - 1]), keys[|keys| - 1])
  }

  /** One pass of the `for file_name in file_names` loop that found data: every
      dict of `b` is added into `a` key by key, the counters are added and the
      individual volumes are appended. */
  function Merge(a: Tally, b: Tally): (r: Tally)
    requires WellFormed(a) && WellFormed(b)
    ensures WellFormed(r)
  {
    Tally(
      AddVolumes(a.userVolumes, b.userVolumes.order, b.userVolumes.entries),
      AddCounts(a.userAccessCount, b.userAccessCount.order, b.userAccessCount.entries),
      a.totalTransactions + b.totalTransactions,
      a.passCount + b.passCount,
      a.failCount + b.failCount,
      AddCounts(a.kioskActivity, b.kioskActivity.order, b.kioskActivity.entries),
      AddCounts(a.volumeDistribution, b.volumeDistribution.order, b.volumeDistribution.entries),
      a.individualVolumes + b.individualVolumes)
  }

  /** Merging keeps every conservation law of the single files. */
  lemma MergeConsistent(a: Tally, b: Tally)
    requires Consistent(a) && Consistent(b)
    ensures Consistent(Merge(a, b))
  {
    MergeConserved(a, b);
    MergeKeys(a, b);
    MergeHistogram(a, b);
  }

  lemma MergeConserved(a: Tally, b: Tally)
    requires WellFormed(a) && WellFormed(b) && Conserved(a) && Conserved(b)
    ensures Conserved(Merge(a, b))
  {
    SumConcat(a.individualVolumes, b.individualVolumes);
    AddVolumesSum(a.userVolumes, b.userVolumes.order, b.userVolumes.entries);
    AddCountsSum(a.userAccessCount, b.userAccessCount.order, b.userAccessCount.entries);
    AddCountsSum(a.kioskActivity, b.kioskActivity.order, b.kioskActivity.entries);
    AddCountsSum(a.volumeDistribution, b.volumeDistribution.order, b.volumeDistribution.entries);
  }

  lemma MergeKeys(a: Tally, b: Tally)
    requires WellFormed(a) && WellFormed(b) && KeysAccepted(a) && KeysAccepted(b)
    ensures KeysAccepted(Merge(a, b))
  {
    var r := Merge(a, b);
    forall u | u in r.userAccessCount.entries ensures u != [] && r.userAccessCount.entries[u] >= 1 {
      AddCountsPerKey(a.userAccessCount, b.userAccessCount.order, b.userAccessCount.entries, u);
    }
    forall i | 0 <= i < |r.individualVolumes| ensures r.individualVolumes[i] >= 0.0 {
      if i >= |a.individualVolumes| {
        assert r.individualVolumes[i] == b.individualVolumes[i - |a.individualVolumes|];
      }
    }
  }

  lemma MergeHistogram(a: Tally, b: Tally)
    requires WellFormed(a) && WellFormed(b) && HistogramMatches(a) && HistogramMatches(b)
    ensures HistogramMatches(Merge(a, b))
  {
    forall bucket ensures Count(Merge(a, b).volumeDistribution, bucket) == BucketCount(a.individualVolumes + b.individualVolumes, bucket) {
      AddCountsPerKey(a.volumeDistribution, b.volumeDistribution.order, b.volumeDistribution.entries, bucket);
      BucketCountConcat(a.individualVolumes, b.individualVolumes, bucket);
    }
  }

  /** Merging adds every per-key counter of the two tallies, key by key. */
  lemma MergePerKey(a: Tally, b: Tally, k: string)
    requires WellFormed(a) && WellFormed(b)
    ensures Volume(Merge(a, b).userVolumes, k) == Volume(a.userVolumes, k) + Volume(b.userVolumes, k)
    ensures Count(Merge(a, b).userAccessCount, k) == Count(a.userAccessCount, k) + Count(b.userAccessCount, k)
    ensures Count(Merge(a, b).kioskActivity, k) == Count(a.kioskActivity, k) + Count(b.kioskActivity, k)
    ensures Count(Merge(a, b).volumeDistribution, k) == Count(a.volumeDistribution, k) + Count(b.volumeDistribution, k)
  {
    AddVolumesPerKey(a.userVolumes, b.userVolumes.order, b.userVolumes.entries, k);
    AddCountsPerKey(a.userAccessCount, b.userAccessCount.order, b.userAccessCount.entries, k);
    AddCountsPerKey(a.kioskActivity, b.kioskActivity.order, b.kioskActivity.entries, k);
    AddCountsPerKey(a.volumeDistribution, b.volumeDistribution.order, b.volumeDistribution.entries, k);
  }

  /** What a merged tally is, with the order of dict keys and of the list of
      individual volumes forgotten. */
  datatype View = View(
    userVolumes: map<string, real>,
    userAccessCount: map<string, nat>,
    totalTransactions: nat,
    passCount: nat,
    failCount: nat,
    kioskActivity: map<string, nat>,
    volumeDistribution: map<string, nat>,
    individualVolumes: multiset<real>)

  function ViewOf(t: Tally): View {
    View(t.userVolumes.entries, t.userAccessCount.entries, t.totalTransactions, t.passCount,
      t.failCount, t.kioskActivity.entries, t.volumeDistribution.entries, multiset(t.individualVolumes))
  }

  /** `Dicts.Count` on a bare map, for views that carry no insertion order:
      `Count(d, k) == GetCount(d.entries, k)` by definition. */
  function GetCount(m: map<string, nat>, k: string): nat {
    if k in m then m[k] else 0
  }

  /** `Dicts.Volume` on a bare map: `Volume(d, k) == GetVolume(d.entries, k)`. */
  function GetVolume(m: map<string, real>, k: string): real {
    if k in m then m[k] else 0.0
  }

  /** Per-key addition of two counters. */
  function PlusCounts(m: map<string, nat>, n: map<string, nat>): (r: map<string, nat>)
    ensures forall k :: k in r <==> k in m || k in n
  {
    map k | k in m.Keys + n.Keys :: GetCount(m, k) + GetCount(n, k)
  }

  /** Per-key addition of two volume maps. */
  function PlusVolumes(m: map<string, real>, n: map<string, real>): (r: map<string, real>)
    ensures forall k :: k in r <==> k in m || k in n
  {
    map k | k in m.Keys + n.Keys :: GetVolume(m, k) + GetVolume(n, k)
  }

  /** The order-free sum of two tallies. */
  function Plus(v: View, w: View): View {
    View(
      PlusVolumes(v.userVolumes, w.userVolumes),
      PlusCounts(v.userAccessCount, w.userAccessCount),
      v.totalTransactions + w.totalTransactions,
      v.passCount + w.passCount,
      v.failCount + w.failCount,
      PlusCounts(v.kioskActivity, w.kioskActivity),
      PlusCounts(v.volumeDistribution, w.volumeDistribution),
      v.individualVolumes + w.individualVolumes)
  }

  /** Up to key order, merging is per-key addition. */
  lemma MergeView(a: Tally, b: Tally)
    requires WellFormed(a) && WellFormed(b)
    ensures ViewOf(Merge(a, b)) == Plus(ViewOf(a), ViewOf(b))
  {
    var r, v, w := Merge(a, b), ViewOf(a), ViewOf(b);
    PlusVolumesOfAdd(a.userVolumes, b.userVolumes);
    PlusCountsOfAdd(a.userAccessCount, b.userAccessCount);
    PlusCountsOfAdd(a.kioskActivity, b.kioskActivity);
    PlusCountsOfAdd(a.volumeDistribution, b.volumeDistribution);
    assert multiset(r.individualVolumes) == v.individualVolumes + w.individualVolumes;
  }

  lemma PlusCountsOfAdd(d: Dict<nat>, e: Dict<nat>)
    requires Valid(d) && Valid(e)
    ensures AddCounts(d, e.order, e.entries).entries == PlusCounts(d.entries, e.entries)
  {
    PlusCountsKeys(d, e);
    PlusCountsValues(d, e);
    SameMaps(AddCounts(d, e.order, e.entries).entries, PlusCounts(d.entries, e.entries));
  }

  lemma PlusCountsKeys(d: Dict<nat>, e: Dict<nat>)
    requires Valid(d) && Valid(e)
    ensures AddCounts(d, e.order, e.entries).entries.Keys == PlusCounts(d.entries, e.entries).Keys
  {
  }

  lemma PlusCountsValues(d: Dict<nat>, e: Dict<nat>)
    requires Valid(d) && Valid(e)
    ensures forall k :: k in AddCounts(d, e.order, e.entries).entries ==>
      AddCounts(d, e.order, e.entries).entries[k] == PlusCounts(d.entries, e.entries)[k]
  {
    var r, p := AddCounts(d, e.order, e.entries).entries, PlusCounts(d.entries, e.entries);
    forall k | k in r ensures r[k] == p[k] {
      AddCountsPerKey(d, e.order, e.entries, k);
    }
  }

  lemma PlusVolumesOfAdd(d: Dict<real>, e: Dict<real>)
    requires Valid(d) && Valid(e)
    ensures AddVolumes(d, e.order, e.entries).entries == PlusVolumes(d.entries, e.entries)
  {
    PlusVolumesKeys(d, e);
    PlusVolumesValues(d, e);
    SameMaps(AddVolumes(d, e.order, e.entries).entries, PlusVolumes(d.entries, e.entries));
  }

  lemma PlusVolumesKeys(d: Dict<real>, e: Dict<real>)
    requires Valid(d) && Valid(e)
    ensures AddVolumes(d, e.order, e.entries).entries.Keys == PlusVolumes(d.entries, e.entries).Keys
  {
  }

  lemma PlusVolumesValues(d: Dict<real>, e: Dict<real>)
    requires Valid(d) && Valid(e)
    ensures forall k :: k in AddVolumes(d, e.order, e.entries).entries ==>
      AddVolumes(d, e.order, e.entries).entries[k] == PlusVolumes(d.entries, e.entries)[k]
  {
    var r, p := AddVolumes(d, e.order, e.entries).entries, PlusVolumes(d.entries, e.entries);
    forall k | k in r ensures r[k] == p[k] {
      AddVolumesPerKey(d, e.order, e.entries, k);
    }
  }

  lemma SameMaps<V>(r: map<string, V>, p: map<string, V>)
    requires r.Keys == p.Keys
    requires forall k :: k in r ==> r[k] == p[k]
    ensures r == p
  {
  }

  lemma PlusCommutes(v: View, w: View)
    ensures Plus(v, w) == Plus(w, v)
  {
    PlusVolumesCommute(v.userVolumes, w.userVolumes);
    PlusCountsCommute(v.userAccessCount, w.userAccessCount);
    PlusCountsCommute(v.kioskActivity, w.kioskActivity);
    PlusCountsCommute(v.volumeDistribution, w.volumeDistribution);
  }

  lemma PlusCountsCommute(m: map<string, nat>, n: map<string, nat>)
    ensures PlusCounts(m, n) == PlusCounts(n, m)
  {
  }

  lemma PlusVolumesCommute(m: map<string, real>, n: map<string, real>)
    ensures PlusVolumes(m, n) == PlusVolumes(n, m)
  {
  }

  lemma PlusAssociates(u: View, v: View, w: View)
    ensures Plus(Plus(u, v), w) == Plus(u, Plus(v, w))
  {
    PlusVolumesAssociate(u.userVolumes, v.userVolumes, w.userVolumes);
    PlusCountsAssociate(u.userAccessCount, v.userAccessCount, w.userAccessCount);
    PlusCountsAssociate(u.kioskActivity, v.kioskActivity, w.kioskActivity);
    PlusCountsAssociate(u.volumeDistribution, v.volumeDistribution, w.volumeDistribution);
  }

  lemma PlusCountsAssociate(m: map<string, nat>, n: map<string, nat>, o: map<string, nat>)
    ensures PlusCounts(PlusCounts(m, n), o) == PlusCounts(m, PlusCounts(n, o))
  {
    var l, r := PlusCounts(PlusCounts(m, n), o), PlusCounts(m, PlusCounts(n, o));
    assert l.Keys == r.Keys;
    SameMaps(l, r);
  }

  lemma PlusVolumesAssociate(m: map<string, real>, n: map<string, real>, o: map<string, real>)
    ensures PlusVolumes(PlusVolumes(m, n), o) == PlusVolumes(m, PlusVolumes(n, o))
  {
    var l, r := PlusVolumes(PlusVolumes(m, n), o), PlusVolumes(m, PlusVolumes(n, o));
    assert l.Keys == r.Keys;
    SameMaps(l, r);
  }

  /** The tallies of several files merged in the given order, starting empty. */
  function MergeAll(ts: seq<Tally>): (r: Tally)
    requires forall i :: 0 <= i < |ts| ==> WellFormed(ts[i])
    ensures WellFormed(r)
  {
    if ts == [] then EmptyTally() else Merge(MergeAll(ts[..|ts| - 1]), ts[|ts| - 1])
  }

  /** Merging one more file's tally. */
  lemma MergeAllSnoc(ts: seq<Tally>, t: Tally)
    requires forall i :: 0 <= i < |ts| ==> WellFormed(ts[i])
    requires WellFormed(t)
    ensures MergeAll(ts + [t]) == Merge(MergeAll(ts), t)
  {
    assert (ts + [t])[..|ts|] == ts;
  }

  ghost predicate AllConsistent(ts: seq<Tally>) {
    forall i :: 0 <= i < |ts| ==> Consistent(ts[i])
  }

  lemma {:induction false} MergeAllConsistent(ts: seq<Tally>)
    requires AllConsistent(ts)
    ensures Consistent(MergeAll(ts))
    decreases |ts|
  {
    if ts == [] {
      EmptyTallyConsistent();
    } else {
      var init := ts[..|ts| - 1];
      assert AllConsistent(init) by {
        forall i | 0 <= i < |init| ensures Consistent(init[i]) {
          assert init[i] == ts[i];
        }
      }
      MergeAllConsistent(init);
      MergeConsistent(MergeAll(init), ts[|ts| - 1]);
    }
  }

  /** The order-free sum of the tallies. */
  function PlusAll(ts: seq<Tally>): View {
    if ts == [] then ViewOf(EmptyTally()) else Plus(PlusAll(ts[..|ts| - 1]), ViewOf(ts[|ts| - 1]))
  }

  lemma {:induction false} MergeAllView(ts: seq<Tally>)
    requires forall i :: 0 <= i < |ts| ==> WellFormed(ts[i])
    ensures ViewOf(MergeAll(ts)) == PlusAll(ts)
    decreases |ts|
  {
    if ts != [] {
      MergeAllView(ts[..|ts| - 1]);
      MergeView(MergeAll(ts[..|ts| - 1]), ts[|ts| - 1]);
    }
  }

  lemma PlusEmpty(v: View)
    ensures Plus(ViewOf(EmptyTally()), v) == v
  {
    PlusVolumesEmpty(v.userVolumes);
    PlusCountsEmpty(v.userAccessCount);
    PlusCountsEmpty(v.kioskActivity);
    PlusCountsEmpty(v.volumeDistribution);
    assert multiset(EmptyTally().individualVolumes) + v.individualVolumes == v.individualVolumes;
  }

  lemma PlusCountsEmpty(m: map<string, nat>)
    ensures PlusCounts(map[], m) == m
  {
    forall k | k in m ensures PlusCounts(map[], m)[k] == m[k] {
    }
  }

  lemma PlusVolumesEmpty(m: map<string, real>)
    ensures PlusVolumes(map[], m) == m
  {
    forall k | k in m ensures PlusVolumes(map[], m)[k] == m[k] {
    }
  }

  lemma {:induction false} PlusAllConcat(p: seq<Tally>, q: seq<Tally>)
    ensures PlusAll(p + q) == Plus(PlusAll(p), PlusAll(q))
    decreases |q|
  {
    if q == [] {
      assert p + q == p;
      PlusEmpty(PlusAll(p));
      PlusCommutes(PlusAll(p), ViewOf(EmptyTally()));
    } else {
      assert (p + q)[..|p + q| - 1] == p + q[..|q| - 1];
      PlusAllConcat(p, q[..|q| - 1]);
      PlusAssociates(PlusAll(p), PlusAll(q[..|q| - 1]), ViewOf(q[|q| - 1]));
    }
  }

  /** The order-free sum does not depend on the order of the tallies. */
  lemma {:induction false} PlusAllPermutation(ts: seq<Tally>, us: seq<Tally>)
    requires multiset(ts) == multiset(us)
    ensures PlusAll(ts) == PlusAll(us)
    decreases |ts|
  {
    if ts != [] {
      var i := PermutationMatch(ts, us);
      var rest := us[..i] + us[i + 1..];
      PlusAllPermutation(ts[..|ts| - 1], rest);
      assert us == us[..i] + [us[i]] + us[i + 1..];
      PlusAllConcat(us[..i] + [us[i]], us[i + 1..]);
      PlusAllConcat(us[..i], [us[i]]);
      PlusAllConcat(us[..i], us[i + 1..]);
      var x, y, z := PlusAll(us[..i]), PlusAll([us[i]]), PlusAll(us[i + 1..]);
      assert [us[i]][..0] == [];
      PlusEmpty(ViewOf(us[i]));
      PlusAssociates(x, y, z);
      PlusCommutes(y, z);
      PlusAssociates(x, z, y);
    } else {
      assert |multiset(us)| == 0;
      assert us == [];
    }
  }

  /** Merging the same file results in any order gives the same per-key sums,
      counters and multiset of volumes; only key order and list order differ. */
  lemma MergeAllPermutation(ts: seq<Tally>, us: seq<Tally>)
    requires forall i :: 0 <= i < |ts| ==> WellFormed(ts[i])
    requires forall i :: 0 <= i < |us| ==> WellFormed(us[i])
    requires multiset(ts) == multiset(us)
    ensures ViewOf(MergeAll(ts)) == ViewOf(MergeAll(us))
  {
    MergeAllView(ts);
    MergeAllView(us);
    PlusAllPermutation(ts, us);
  }

  /** The totals of several tallies added up. */
  function TotalOfAll(ts: seq<Tally>): nat {
    if ts == [] then 0 else TotalOfAll(ts[..|ts| - 1]) + ts[|ts| - 1].totalTransactions
  }

  /** The `files`-wide value of one key of each per-key dict: the sum of the
      per-file values. */
  function VolumeOfAll(ts: seq<Tally>, k: string): real {
    if ts == [] then 0.0 else VolumeOfAll(ts[..|ts| - 1], k) + Volume(ts[|ts| - 1].userVolumes, k)
  }

  function AccessOfAll(ts: seq<Tally>, k: string): nat {
    if ts == [] then 0 else AccessOfAll(ts[..|ts| - 1], k) + Count(ts[|ts| - 1].userAccessCount, k)
  }

  function KioskOfAll(ts: seq<Tally>, k: string): nat {
    if ts == [] then 0 else KioskOfAll(ts[..|ts| - 1], k) + Count(ts[|ts| - 1].kioskActivity, k)
  }

  function BucketOfAll(ts: seq<Tally>, k: string): nat {
    if ts == [] then 0 else BucketOfAll(ts[..|ts| - 1], k) + Count(ts[|ts| - 1].volumeDistribution, k)
  }

  /** The merged transaction count is the sum of the files' counts. */
  lemma {:induction false} MergeAllTotal(ts: seq<Tally>)
    requires forall i :: 0 <= i < |ts| ==> WellFormed(ts[i])
    ensures MergeAll(ts).totalTransactions == TotalOfAll(ts)
    decreases |ts|
  {
    if ts != [] {
      MergeAllTotal(ts[..|ts| - 1]);
    }
  }

  /** Every merged per-user value is the sum of that user's values in the files
      (0 where a file lacks the user). */
  lemma {:induction false} MergeAllUserSums(ts: seq<Tally>, k: string)
    requires forall i :: 0 <= i < |ts| ==> WellFormed(ts[i])
    ensures Volume(MergeAll(ts).userVolumes, k) == VolumeOfAll(ts, k)
    ensures Count(MergeAll(ts).userAccessCount, k) == AccessOfAll(ts, k)
    decreases |ts|
  {
    if ts != [] {
      var init, last := ts[..|ts| - 1], ts[|ts| - 1];
      MergeAllUserSums(init, k);
      MergePerKey(MergeAll(init), last, k);
    }
  }

  /** The same for the per-client counts and the histogram buckets. */
  lemma {:induction false} MergeAllKioskSums(ts: seq<Tally>, k: string)
    requires forall i :: 0 <= i < |ts| ==> WellFormed(ts[i])
    ensures Count(MergeAll(ts).kioskActivity, k) == KioskOfAll(ts, k)
    ensures Count(MergeAll(ts).volumeDistribution, k) == BucketOfAll(ts, k)
    decreases |ts|
  {
    if ts != [] {
      var init, last := ts[..|ts| - 1], ts[|ts| - 1];
      MergeAllKioskSums(init, k);
      MergePerKey(MergeAll(init), last, k);
    }
  }

  /** When every file contributed at least one transaction, the merged total is
      0 exactly when no file contributed. */
  lemma {:induction false} MergeAllEmpty(ts: seq<Tally>)
    requires forall i :: 0 <= i < |ts| ==> ts[i].totalTransactions > 0
    ensures TotalOfAll(ts) == 0 <==> ts == []
  {
    if ts != [] {
      assert ts[|ts| - 1].totalTransactions > 0;
    }
  }
}
