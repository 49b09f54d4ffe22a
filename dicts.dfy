/** Python dictionaries keyed by strings, as the analytics code uses them:
    `defaultdict(int)` / `defaultdict(float)` counters updated with `+=`,
    plain assignment `d[k] = v`, `d.items()` in insertion order, and
    `sum(d.values())`. */
module Dicts {

  /** A dict: its entries, and its keys in the order they were first inserted. */
  datatype Dict<V> = Dict(order: seq<string>, entries: map<string, V>)

  ghost predicate Distinct(s: seq<string>) {
    forall i, j :: 0 <= i < j < |s| ==> s[i] != s[j]
  }

  /** The order lists every key exactly once. */
  ghost predicate Valid<V>(d: Dict<V>) {
    Distinct(d.order) && forall k :: k in d.entries <==> k in d.order
  }

  function Empty<V>(): (d: Dict<V>)
    ensures Valid(d) && |d.entries| == 0 && d.order == []
  {
    Dict([], map[])
  }

  /** Where the key of an update goes in the insertion order: at the end, if it is new. */
  function Touch(order: seq<string>, k: string): seq<string> {
    if k in order then order else order + [k]
  }

  /** Touching a key keeps the keys already there in their places, appends the
      key once when it is new, and adds nothing else. */
  lemma TouchKeys(order: seq<string>, k: string)
    ensures order <= Touch(order, k) && k in Touch(order, k)
    ensures |Touch(order, k)| == if k in order then |order| else |order| + 1
    ensures Distinct(order) ==> Distinct(Touch(order, k))
    ensures forall j :: j in Touch(order, k) <==> j in order || j == k
  {
  }

  /** `d[k]` of a `defaultdict(int)`: 0 for a key never inserted. */
  function Count(d: Dict<nat>, k: string): nat {
    if k in d.entries then d.entries[k] else 0
  }

  /** `d[k]` of a `defaultdict(float)`: 0.0 for a key never inserted. */
  function Volume(d: Dict<real>, k: string): real {
    if k in d.entries then d.entries[k] else 0.0
  }

  /** `d[k] += n` on a `defaultdict(int)`. */
  function AddCount(d: Dict<nat>, k: string, n: nat): (r: Dict<nat>)
    ensures k in r.entries && Count(r, k) == Count(d, k) + n
    ensures r.order == Touch(d.order, k)
  {
    Dict(Touch(d.order, k), d.entries[k := Count(d, k) + n])
  }

  /** `d[k] += n` keeps the dict well-formed and leaves every other key as it was. */
  lemma AddCountOthers(d: Dict<nat>, k: string, n: nat)
    ensures Valid(d) ==> Valid(AddCount(d, k, n))
    ensures forall j :: j != k ==> Count(AddCount(d, k, n), j) == Count(d, j)
    ensures forall j :: j in AddCount(d, k, n).entries <==> j in d.entries || j == k
  {
    TouchKeys(d.order, k);
  }

  /** `d[k] += v` on a `defaultdict(float)`. */
  function AddVolume(d: Dict<real>, k: string, v: real): (r: Dict<real>)
    ensures k in r.entries && Volume(r, k) == Volume(d, k) + v
    ensures r.order == Touch(d.order, k)
  {
    Dict(Touch(d.order, k), d.entries[k := Volume(d, k) + v])
  }

  /** `d[k] += v` keeps the dict well-formed and leaves every other key as it was. */
  lemma AddVolumeOthers(d: Dict<real>, k: string, v: real)
    ensures Valid(d) ==> Valid(AddVolume(d, k, v))
    ensures forall j :: j != k ==> Volume(AddVolume(d, k, v), j) == Volume(d, j)
    ensures forall j :: j in AddVolume(d, k, v).entries <==> j in d.entries || j == k
  {
    TouchKeys(d.order, k);
  }

  /** `d[k] = v`: the old value of `k`, if any, is replaced. */
  function Put<V>(d: Dict<V>, k: string, v: V): (r: Dict<V>)
    ensures k in r.entries && r.entries[k] == v
    ensures r.order == Touch(d.order, k)
  {
    Dict(Touch(d.order, k), d.entries[k := v])
  }

  /** `d[k] = v` keeps the dict well-formed and leaves every other key as it was. */
  lemma PutOthers<V>(d: Dict<V>, k: string, v: V)
    ensures Valid(d) ==> Valid(Put(d, k, v))
    ensures forall j :: j in Put(d, k, v).entries <==> j in d.entries || j == k
    ensures forall j :: j != k && j in d.entries ==> Put(d, k, v).entries[j] == d.entries[j]
  {
    TouchKeys(d.order, k);
  }

  /** `list(d.items())`: the entries, in insertion order. */
  function Items<V>(d: Dict<V>): (r: seq<(string, V)>)
    requires Valid(d)
    ensures |r| == |d.order|
    ensures forall i :: 0 <= i < |r| ==> r[i].0 == d.order[i] && d.order[i] in d.entries && r[i].1 == d.entries[d.order[i]]
  {
    seq(|d.order|, i requires 0 <= i < |d.order| => (d.order[i], d.entries[d.order[i]]))
  }

  /** An item is listed exactly when its key is in the dict with that value. */
  lemma ItemsMembership<V>(d: Dict<V>, k: string, v: V)
    requires Valid(d)
    ensures (k, v) in Items(d) <==> k in d.entries && d.entries[k] == v
  {
    if k in d.entries && d.entries[k] == v {
      var i :| 0 <= i < |d.order| && d.order[i] == k;
      assert Items(d)[i] == (k, v);
    }
  }

  /** A dict has as many entries as its order has keys. */
  lemma {:induction false} OrderCardinality<V>(d: Dict<V>)
    requires Valid(d)
    ensures |d.entries| == |d.order|
    decreases |d.order|
  {
    if d.order != [] {
      var last := d.order[|d.order| - 1];
      var rest := Dict(d.order[..|d.order| - 1], d.entries - {last});
      forall k ensures k in rest.entries <==> k in rest.order {
        if k in d.order && k != last {
          var i :| 0 <= i < |d.order| && d.order[i] == k;
          assert i < |d.order| - 1;
          assert rest.order[i] == k;
        }
      }
      OrderCardinality(rest);
      assert d.entries.Keys == rest.entries.Keys + {last};
    } else {
      assert d.entries.Keys == {};
    }
  }

  // ---------------------------------------------------------------- sums

  /** `sum(m[k] for k in keys)` over a counter. */
  function SumCounts(keys: seq<string>, m: map<string, nat>): nat
    requires forall k :: k in keys ==> k in m
  {
    if keys == [] then 0 else SumCounts(keys[..|keys| - 1], m) + m[keys[|keys| - 1]]
  }

  /** `sum(m[k] for k in keys)` over volumes. */
  function SumVolumes(keys: seq<string>, m: map<string, real>): real
    requires forall k :: k in keys ==> k in m
  {
    if keys == [] then 0.0 else SumVolumes(keys[..|keys| - 1], m) + m[keys[|keys| - 1]]
  }

  /** `sum(d.values())` of a counter. */
  function CountSum(d: Dict<nat>): nat
    requires Valid(d)
  {
    SumCounts(d.order, d.entries)
  }

  /** `sum(d.values())` of a volume dict. */
  function VolumeSum(d: Dict<real>): real
    requires Valid(d)
  {
    SumVolumes(d.order, d.entries)
  }

  lemma {:induction false} SumCountsConcat(p: seq<string>, q: seq<string>, m: map<string, nat>)
    requires forall k :: k in p + q ==> k in m
    ensures SumCounts(p + q, m) == SumCounts(p, m) + SumCounts(q, m)
    decreases |q|
  {
    if q == [] {
      assert p + q == p;
    } else {
      assert (p + q)[..|p + q| - 1] == p + q[..|q| - 1];
      SumCountsConcat(p, q[..|q| - 1], m);
    }
  }

  lemma {:induction false} SumVolumesConcat(p: seq<string>, q: seq<string>, m: map<string, real>)
    requires forall k :: k in p + q ==> k in m
    ensures SumVolumes(p + q, m) == SumVolumes(p, m) + SumVolumes(q, m)
    decreases |q|
  {
    if q == [] {
      assert p + q == p;
    } else {
      assert (p + q)[..|p + q| - 1] == p + q[..|q| - 1];
      SumVolumesConcat(p, q[..|q| - 1], m);
    }
  }

  /** Dropping the element at `i` from a list drops one copy of it from the multiset. */
  lemma MultisetRemoveAt<T>(b: seq<T>, i: nat)
    requires i < |b|
    ensures multiset(b[..i] + b[i + 1..]) == multiset(b) - multiset{b[i]}
  {
    assert b == b[..i] + [b[i]] + b[i + 1..];
  }

  lemma SumCountsRemoveAt(b: seq<string>, i: nat, m: map<string, nat>)
    requires i < |b|
    requires forall k :: k in b ==> k in m
    ensures SumCounts(b, m) == SumCounts(b[..i] + b[i + 1..], m) + m[b[i]]
  {
    assert b == b[..i] + ([b[i]] + b[i + 1..]);
    SumCountsConcat(b[..i], [b[i]] + b[i + 1..], m);
    SumCountsConcat([b[i]], b[i + 1..], m);
    SumCountsConcat(b[..i], b[i + 1..], m);
    assert SumCounts([b[i]], m) == m[b[i]] by { assert [b[i]][..0] == []; }
  }

  lemma SumVolumesRemoveAt(b: seq<string>, i: nat, m: map<string, real>)
    requires i < |b|
    requires forall k :: k in b ==> k in m
    ensures SumVolumes(b, m) == SumVolumes(b[..i] + b[i + 1..], m) + m[b[i]]
  {
    assert b == b[..i] + ([b[i]] + b[i + 1..]);
    SumVolumesConcat(b[..i], [b[i]] + b[i + 1..], m);
    SumVolumesConcat([b[i]], b[i + 1..], m);
    SumVolumesConcat(b[..i], b[i + 1..], m);
    assert SumVolumes([b[i]], m) == m[b[i]] by { assert [b[i]][..0] == []; }
  }

  /** The last element of `a` sits somewhere in its permutation `b`; the rest match up. */
  lemma PermutationMatch<T>(a: seq<T>, b: seq<T>) returns (i: nat)
    requires multiset(a) == multiset(b) && a != []
    ensures i < |b| && b[i] == a[|a| - 1]
    ensures multiset(a[..|a| - 1]) == multiset(b[..i] + b[i + 1..])
  {
    assert a[|a| - 1] in multiset(a);
    i :| 0 <= i < |b| && b[i] == a[|a| - 1];
    MultisetRemoveAt(b, i);
    MultisetRemoveAt(a, |a| - 1);
    assert a[..|a| - 1] + a[|a|..] == a[..|a| - 1];
  }

  /** The sum over a list of keys does not depend on the order of the list. */
  lemma {:induction false} SumCountsPermutation(a: seq<string>, b: seq<string>, m: map<string, nat>)
    requires multiset(a) == multiset(b)
    requires forall k :: k in a ==> k in m
    requires forall k :: k in b ==> k in m
    ensures SumCounts(a, m) == SumCounts(b, m)
    decreases |a|
  {
    if a != [] {
      var i := PermutationMatch(a, b);
      var a', b' := a[..|a| - 1], b[..i] + b[i + 1..];
      assert forall k :: k in a' ==> k in a;
      assert forall k :: k in b' ==> k in b;
      SumCountsPermutation(a', b', m);
      SumCountsRemoveAt(b, i, m);
    } else {
      assert |multiset(b)| == 0;
    }
  }

  /** The sum over a list of keys does not depend on the order of the list. */
  lemma {:induction false} SumVolumesPermutation(a: seq<string>, b: seq<string>, m: map<string, real>)
    requires multiset(a) == multiset(b)
    requires forall k :: k in a ==> k in m
    requires forall k :: k in b ==> k in m
    ensures SumVolumes(a, m) == SumVolumes(b, m)
    decreases |a|
  {
    if a != [] {
      var i := PermutationMatch(a, b);
      var a', b' := a[..|a| - 1], b[..i] + b[i + 1..];
      assert forall k :: k in a' ==> k in a;
      assert forall k :: k in b' ==> k in b;
      SumVolumesPermutation(a', b', m);
      SumVolumesRemoveAt(b, i, m);
    } else {
      assert |multiset(b)| == 0;
    }
  }

  /** Only the values of the listed keys matter. */
  lemma {:induction false} SumCountsFrame(keys: seq<string>, m: map<string, nat>, m': map<string, nat>)
    requires forall k :: k in keys ==> k in m && k in m' && m[k] == m'[k]
    ensures SumCounts(keys, m) == SumCounts(keys, m')
    decreases |keys|
  {
    if keys != [] {
      SumCountsFrame(keys[..|keys| - 1], m, m');
    }
  }

  lemma {:induction false} SumVolumesFrame(keys: seq<string>, m: map<string, real>, m': map<string, real>)
    requires forall k :: k in keys ==> k in m && k in m' && m[k] == m'[k]
    ensures SumVolumes(keys, m) == SumVolumes(keys, m')
    decreases |keys|
  {
    if keys != [] {
      SumVolumesFrame(keys[..|keys| - 1], m, m');
    }
  }

  /** Raising the value of one key that occurs once raises the sum by as much. */
  lemma {:induction false} SumCountsBump(keys: seq<string>, m: map<string, nat>, k: string, n: nat)
    requires Distinct(keys) && k in keys && k in m
    requires forall j :: j in keys ==> j in m
    ensures SumCounts(keys, m[k := m[k] + n]) == SumCounts(keys, m) + n
    decreases |keys|
  {
    var init, last := keys[..|keys| - 1], keys[|keys| - 1];
    if last == k {
      assert k !in init;
      SumCountsFrame(init, m, m[k := m[k] + n]);
    } else {
      assert k in init;
      SumCountsBump(init, m, k, n);
    }
  }

  lemma {:induction false} SumVolumesBump(keys: seq<string>, m: map<string, real>, k: string, v: real)
    requires Distinct(keys) && k in keys && k in m
    requires forall j :: j in keys ==> j in m
    ensures SumVolumes(keys, m[k := m[k] + v]) == SumVolumes(keys, m) + v
    decreases |keys|
  {
    var init, last := keys[..|keys| - 1], keys[|keys| - 1];
    if last == k {
      assert k !in init;
      SumVolumesFrame(init, m, m[k := m[k] + v]);
    } else {
      assert k in init;
      SumVolumesBump(init, m, k, v);
    }
  }

  /** `d[k] += n` raises `sum(d.values())` by exactly `n`. */
  lemma CountSumAdd(d: Dict<nat>, k: string, n: nat)
    requires Valid(d)
    ensures CountSum(AddCount(d, k, n)) == CountSum(d) + n
  {
    var r := AddCount(d, k, n);
    AddCountOthers(d, k, n);
    if k in d.entries {
      SumCountsBump(d.order, d.entries, k, n);
    } else {
      SumCountsFrame(d.order, d.entries, r.entries);
      assert r.order[..|r.order| - 1] == d.order;
    }
  }

  /** `d[k] += v` raises `sum(d.values())` by exactly `v`. */
  lemma VolumeSumAdd(d: Dict<real>, k: string, v: real)
    requires Valid(d)
    ensures VolumeSum(AddVolume(d, k, v)) == VolumeSum(d) + v
  {
    var r := AddVolume(d, k, v);
    AddVolumeOthers(d, k, v);
    if k in d.entries {
      SumVolumesBump(d.order, d.entries, k, v);
    } else {
      SumVolumesFrame(d.order, d.entries, r.entries);
      assert r.order[..|r.order| - 1] == d.order;
    }
  }

  /** When every counter is at least one, there are no more keys than the total count. */
  lemma {:induction false} SumCountsAtLeastLength(keys: seq<string>, m: map<string, nat>)
    requires forall k :: k in keys ==> k in m && m[k] >= 1
    ensures SumCounts(keys, m) >= |keys|
    decreases |keys|
  {
    if keys != [] {
      SumCountsAtLeastLength(keys[..|keys| - 1], m);
    }
  }

  /** Two dicts with the same entries have the same `sum(d.values())`, whatever their orders. */
  lemma SameEntriesSameSums(d: Dict<real>, e: Dict<real>)
    requires Valid(d) && Valid(e) && d.entries == e.entries
    ensures VolumeSum(d) == VolumeSum(e)
  {
    DistinctSameSetPermutation(d.order, e.order);
    SumVolumesPermutation(d.order, e.order, d.entries);
  }

  lemma SameEntriesSameCounts(d: Dict<nat>, e: Dict<nat>)
    requires Valid(d) && Valid(e) && d.entries == e.entries
    ensures CountSum(d) == CountSum(e)
  {
    DistinctSameSetPermutation(d.order, e.order);
    SumCountsPermutation(d.order, e.order, d.entries);
  }

  /** Two duplicate-free lists of the same keys are permutations of each other. */
  lemma DistinctSameSetPermutation(a: seq<string>, b: seq<string>)
    requires Distinct(a) && Distinct(b)
    requires forall k :: k in a <==> k in b
    ensures multiset(a) == multiset(b)
  {
    forall k ensures multiset(a)[k] == multiset(b)[k] {
      DistinctMultiplicity(a, k);
      DistinctMultiplicity(b, k);
    }
  }

  lemma {:induction false} DistinctMultiplicity(a: seq<string>, k: string)
    requires Distinct(a)
    ensures multiset(a)[k] == if k in a then 1 else 0
    decreases |a|
  {
    if a != [] {
      var init := a[..|a| - 1];
      assert a == init + [a[|a| - 1]];
      DistinctMultiplicity(init, k);
      assert a[|a| - 1] !in init;
    }
  }
}
