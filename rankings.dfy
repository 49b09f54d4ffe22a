/** The rankings of `analyze_data`: `sorted(d.items(), key=lambda x: x[1],
    reverse=True)`, cut to the first 20 for the two user rankings and kept whole
    for the client ranking. Python's sort is stable even with `reverse=True`, so
    items with equal values keep the order in which their keys were first
    inserted into the dict. */
module Rankings {
  import opened Dicts
  import opened Sorting

  /** How many users the two user rankings keep. */
  const TopUsers: nat := 20

  /** Descending by volume: an item may stay in front of one whose volume is not larger. */
  predicate ByVolume(a: (string, real), b: (string, real)) {
    a.1 >= b.1
  }

  /** Descending by count. */
  predicate ByCount(a: (string, nat), b: (string, nat)) {
    a.1 >= b.1
  }

  lemma ByVolumeTotal()
    ensures TotalPreorder(ByVolume)
  {
  }

  lemma ByCountTotal()
    ensures TotalPreorder(ByCount)
  {
  }

  /** `sorted(d.items(), ...)` for the order `le`. */
  function Rank<V>(d: Dict<V>, le: ((string, V), (string, V)) -> bool): seq<(string, V)>
    requires Valid(d)
  {
    SortBy(Items(d), le)
  }

  /** `s[:n]`. */
  function Take<T>(s: seq<T>, n: nat): (r: seq<T>)
    ensures r <= s
    ensures |r| == if |s| <= n then |s| else n
  {
    if |s| <= n then s else s[..n]
  }

  /** A ranking lists every item of the dict once and nothing else, in
      order, and items with equal values in the order their keys were first
      inserted. */
  lemma RankIsStableSort<V(!new)>(d: Dict<V>, le: ((string, V), (string, V)) -> bool)
    requires Valid(d) && TotalPreorder(le)
    ensures multiset(Rank(d, le)) == multiset(Items(d))
    ensures |Rank(d, le)| == |d.entries|
    ensures forall k, v :: (k, v) in Rank(d, le) <==> k in d.entries && d.entries[k] == v
    ensures Sorted(Rank(d, le), le)
    ensures forall e :: Equivalents(Rank(d, le), le, e) == Equivalents(Items(d), le, e)
  {
    var r := Rank(d, le);
    OrderCardinality(d);
    forall k, v ensures (k, v) in r <==> k in d.entries && d.entries[k] == v {
      ItemsMembership(d, k, v);
      assert (k, v) in r <==> (k, v) in multiset(r);
    }
    SortBySorted(Items(d), le);
    forall e ensures Equivalents(r, le, e) == Equivalents(Items(d), le, e) {
      SortByStable(Items(d), le, e);
    }
  }

  /** The first `n` of a ranking: `min(n, #keys)` items of the dict with their
      values, in order; every item left out ranks behind every item kept; and
      equal values keep first-inserted order. */
  lemma TopOfRank<V(!new)>(d: Dict<V>, le: ((string, V), (string, V)) -> bool, n: nat)
    requires Valid(d) && TotalPreorder(le)
    ensures var r := Take(Rank(d, le), n);
      && |r| == (if |d.entries| <= n then |d.entries| else n)
      && Sorted(r, le)
      && (forall i :: 0 <= i < |r| ==> r[i].0 in d.entries && d.entries[r[i].0] == r[i].1)
      && (forall k, i :: k in d.entries && (k, d.entries[k]) !in r && 0 <= i < |r| ==> le(r[i], (k, d.entries[k])))
      && (forall e :: Equivalents(r, le, e) <= Equivalents(Items(d), le, e))
  {
    RankIsStableSort(d, le);
    TopMembers(d, le, n);
    TopDominates(d, le, n);
    TopStable(d, le, n);
  }

  lemma TopMembers<V(!new)>(d: Dict<V>, le: ((string, V), (string, V)) -> bool, n: nat)
    requires Valid(d) && TotalPreorder(le)
    ensures var r := Take(Rank(d, le), n);
      forall i :: 0 <= i < |r| ==> r[i].0 in d.entries && d.entries[r[i].0] == r[i].1
  {
    var s := Rank(d, le);
    var r := Take(s, n);
    RankIsStableSort(d, le);
    forall i | 0 <= i < |r| ensures r[i].0 in d.entries && d.entries[r[i].0] == r[i].1 {
      assert r[i] == s[i];
      assert (r[i].0, r[i].1) in s;
    }
  }

  lemma TopDominates<V(!new)>(d: Dict<V>, le: ((string, V), (string, V)) -> bool, n: nat)
    requires Valid(d) && TotalPreorder(le)
    ensures var r := Take(Rank(d, le), n);
      forall k, i :: k in d.entries && (k, d.entries[k]) !in r && 0 <= i < |r| ==> le(r[i], (k, d.entries[k]))
  {
    var s := Rank(d, le);
    var r := Take(s, n);
    RankIsStableSort(d, le);
    forall k, i | k in d.entries && (k, d.entries[k]) !in r && 0 <= i < |r|
      ensures le(r[i], (k, d.entries[k]))
    {
      var x := (k, d.entries[k]);
      assert x in s;
      var j :| 0 <= j < |s| && s[j] == x;
      InPrefix(s, j, |r|);
      assert r[i] == s[i];
    }
  }

  /** An element at a position before `n` lies in the first `n` elements. */
  lemma InPrefix<T>(s: seq<T>, j: nat, n: nat)
    requires j < |s| && n <= |s|
    ensures j < n ==> s[j] in s[..n]
  {
    if j < n {
      assert s[..n][j] == s[j];
    }
  }

  lemma TopStable<V(!new)>(d: Dict<V>, le: ((string, V), (string, V)) -> bool, n: nat)
    requires Valid(d) && TotalPreorder(le)
    ensures var r := Take(Rank(d, le), n);
      forall e :: Equivalents(r, le, e) <= Equivalents(Items(d), le, e)
  {
    var s := Rank(d, le);
    var r := Take(s, n);
    assert s == r + s[|r|..];
    forall e ensures Equivalents(r, le, e) <= Equivalents(Items(d), le, e) {
      SortByStable(Items(d), le, e);
      EquivalentsConcat(r, s[|r|..], le, e);
    }
  }

  /** `top_users_by_volume`. */
  function TopUsersByVolume(d: Dict<real>): seq<(string, real)>
    requires Valid(d)
  {
    Take(Rank(d, ByVolume), TopUsers)
  }

  /** `top_users_by_frequency`. */
  function TopUsersByFrequency(d: Dict<nat>): seq<(string, nat)>
    requires Valid(d)
  {
    Take(Rank(d, ByCount), TopUsers)
  }

  /** The `kiosk_activity` ranking: every client, busiest first. */
  function KioskRanking(d: Dict<nat>): seq<(string, nat)>
    requires Valid(d)
  {
    Rank(d, ByCount)
  }

  /** The top users by volume: at most 20 users of the map with their volumes,
      largest first, no user left out with more volume than one kept, and
      equal volumes in first-seen order. */
  lemma TopUsersByVolumeSpec(d: Dict<real>)
    requires Valid(d)
    ensures var r := TopUsersByVolume(d);
      && |r| == (if |d.entries| <= TopUsers then |d.entries| else TopUsers)
      && (forall i, j :: 0 <= i < j < |r| ==> r[i].1 >= r[j].1)
      && (forall i :: 0 <= i < |r| ==> r[i].0 in d.entries && d.entries[r[i].0] == r[i].1)
      && (forall k, i :: k in d.entries && (k, d.entries[k]) !in r && 0 <= i < |r| ==> r[i].1 >= d.entries[k])
      && (forall e :: Equivalents(r, ByVolume, e) <= Equivalents(Items(d), ByVolume, e))
  {
    ByVolumeTotal();
    TopOfRank(d, ByVolume, TopUsers);
  }

  /** The same for the top users by number of transactions. */
  lemma TopUsersByFrequencySpec(d: Dict<nat>)
    requires Valid(d)
    ensures var r := TopUsersByFrequency(d);
      && |r| == (if |d.entries| <= TopUsers then |d.entries| else TopUsers)
      && (forall i, j :: 0 <= i < j < |r| ==> r[i].1 >= r[j].1)
      && (forall i :: 0 <= i < |r| ==> r[i].0 in d.entries && d.entries[r[i].0] == r[i].1)
      && (forall k, i :: k in d.entries && (k, d.entries[k]) !in r && 0 <= i < |r| ==> r[i].1 >= d.entries[k])
      && (forall e :: Equivalents(r, ByCount, e) <= Equivalents(Items(d), ByCount, e))
  {
    ByCountTotal();
    TopOfRank(d, ByCount, TopUsers);
  }

  /** The client ranking is a permutation of all of `kiosk_activity`, busiest
      first, with equal counts in first-seen order. */
  lemma KioskRankingSpec(d: Dict<nat>)
    requires Valid(d)
    ensures var r := KioskRanking(d);
      && multiset(r) == multiset(Items(d))
      && (forall k, v :: (k, v) in r <==> k in d.entries && d.entries[k] == v)
      && (forall i, j :: 0 <= i < j < |r| ==> r[i].1 >= r[j].1)
      && (forall e :: Equivalents(r, ByCount, e) == Equivalents(Items(d), ByCount, e))
  {
    ByCountTotal();
    RankIsStableSort(d, ByCount);
  }
}
