/** Hash bucketing followed by per-bucket grouping reduces exactly what the sequential program reduces. */
module Bucketing {
  import opened Ordering

  datatype KV = KV(key: string, value: string)

  /** One call of the reduce function. */
  datatype ReduceCall = ReduceCall(key: string, values: seq<string>)

  function BucketOf(hash: string -> nat, n: nat, key: string): nat
    requires n > 0
  {
    hash(key) % n
  }

  /** The pairs of bucket b, in order. */
  function InBucket(kvs: seq<KV>, hash: string -> nat, n: nat, b: nat): seq<KV>
    requires n > 0
  {
    if kvs == [] then []
    else
      var m := |kvs| - 1;
      InBucket(kvs[..m], hash, n, b) + if BucketOf(hash, n, kvs[m].key) == b then [kvs[m]] else []
  }

  /** The bucket-filling loop of a map task. */
  method FillBuckets(kvs: seq<KV>, hash: string -> nat, n: nat) returns (buckets: array<seq<KV>>)
    requires n > 0
    ensures fresh(buckets) && buckets.Length == n
    ensures forall b :: 0 <= b < n ==> buckets[b] == InBucket(kvs, hash, n, b)
    ensures forall b, x :: 0 <= b < n ==> (x in buckets[b] <==> x in kvs && hash(x.key) % n == b)
  {
    buckets := new seq<KV>[n](_ => []);
    for i := 0 to |kvs|
      invariant forall b :: 0 <= b < n ==> buckets[b] == InBucket(kvs[..i], hash, n, b)
    {
      assert kvs[..i + 1][..i] == kvs[..i];
      var b := hash(kvs[i].key) % n;
      buckets[b] := buckets[b] + [kvs[i]];
    }
    assert kvs[..|kvs|] == kvs;
    forall b: nat, x | b < n ensures x in buckets[b] <==> x in kvs && hash(x.key) % n == b {
      BucketHolds(kvs, hash, n, b, x);
    }
  }

  /** A bucket of a longer input is the bucket of its parts, in order. */
  lemma {:induction false} BucketsInOrder(a: seq<KV>, c: seq<KV>, hash: string -> nat, n: nat, b: nat)
    requires n > 0
    ensures InBucket(a + c, hash, n, b) == InBucket(a, hash, n, b) + InBucket(c, hash, n, b)
    decreases |c|
  {
    if c == [] {
      assert a + c == a;
    } else {
      var m := |c| - 1;
      LastOfBoth(a, c);
      BucketsInOrder(a, c[..m], hash, n, b);
    }
  }

  lemma LastOfBoth(a: seq<KV>, c: seq<KV>)
    requires c != []
    ensures (a + c)[..|a + c| - 1] == a + c[..|c| - 1] && (a + c)[|a + c| - 1] == c[|c| - 1]
  {
  }

  /** A single pair goes where its key hashes to. */
  lemma BucketOfOne(kv: KV, hash: string -> nat, n: nat, b: nat)
    requires n > 0
    ensures InBucket([kv], hash, n, b) == if hash(kv.key) % n == b then [kv] else []
  {
    assert [kv][..0] == [];
  }

  lemma {:induction false} BucketHolds(kvs: seq<KV>, hash: string -> nat, n: nat, b: nat, x: KV)
    requires n > 0
    ensures x in InBucket(kvs, hash, n, b) <==> x in kvs && hash(x.key) % n == b
  {
    if kvs != [] {
      var m := |kvs| - 1;
      BucketHolds(kvs[..m], hash, n, b, x);
      assert kvs == kvs[..m] + [kvs[m]];
    }
  }

  /** How many pairs at the front share the first key. */
  function RunLength(s: seq<KV>): (n: nat)
    requires s != []
    ensures 1 <= n <= |s|
    ensures forall i :: 0 <= i < n ==> s[i].key == s[0].key
    ensures n < |s| ==> s[n].key != s[0].key
  {
    if |s| == 1 || s[1].key != s[0].key then 1 else
      var n := RunLength(s[1..]);
      assert forall i :: 1 <= i < n + 1 ==> s[i] == s[1..][i - 1];
      n + 1
  }

  function ValueList(s: seq<KV>): seq<string> {
    seq(|s|, i requires 0 <= i < |s| => s[i].value)
  }

  /** One call per maximal run of equal keys. */
  function Grouped(s: seq<KV>): seq<ReduceCall>
    decreases |s|
  {
    if s == [] then []
    else
      var n := RunLength(s);
      [ReduceCall(s[0].key, ValueList(s[..n]))] + Grouped(s[n..])
  }

  lemma {:induction false} RunLengthIs(s: seq<KV>, n: nat)
    requires 1 <= n <= |s| && (forall i :: 0 <= i < n ==> s[i].key == s[0].key) && (n < |s| ==> s[n].key != s[0].key)
    ensures RunLength(s) == n
  {
  }

  lemma GroupStep(s: seq<KV>, i: nat, j: nat)
    requires i < j <= |s| && (forall k :: i <= k < j ==> s[k].key == s[i].key) && (j < |s| ==> s[j].key != s[i].key)
    ensures Grouped(s[i..]) == [ReduceCall(s[i].key, ValueList(s[i..j]))] + Grouped(s[j..])
  {
    RunLengthIs(s[i..], j - i);
    assert s[i..][..j - i] == s[i..j] && s[i..][j - i..] == s[j..];
  }

  method ValuesBetween(s: seq<KV>, i: nat, j: nat) returns (values: seq<string>)
    requires i <= j <= |s|
    ensures values == ValueList(s[i..j])
  {
    values := [];
    for k := i to j
      invariant values == ValueList(s[i..k])
    {
      assert s[i..k + 1] == s[i..k] + [s[k]];
      values := values + [s[k].value];
    }
  }

  method RunEnd(s: seq<KV>, i: nat) returns (j: nat)
    requires i < |s|
    ensures i < j <= |s| && (forall k :: i <= k < j ==> s[k].key == s[i].key) && (j < |s| ==> s[j].key != s[i].key)
  {
    j := i + 1;
    while j < |s| && s[j].key == s[i].key
      invariant i < j <= |s|
      invariant forall k :: i <= k < j ==> s[k].key == s[i].key
    {
      j := j + 1;
    }
  }

  /** The pairs that reduce calls stand for, in order. */
  function Ungrouped(calls: seq<ReduceCall>): seq<KV> {
    if calls == [] then [] else PairsOf(calls[0]) + Ungrouped(calls[1..])
  }

  function PairsOf(c: ReduceCall): seq<KV> {
    seq(|c.values|, i requires 0 <= i < |c.values| => KV(c.key, c.values[i]))
  }

  /** No call is empty and neighbours have different keys. */
  predicate Maximal(calls: seq<ReduceCall>) {
    && (forall i :: 0 <= i < |calls| ==> calls[i].values != [])
    && (forall i :: 0 <= i < |calls| - 1 ==> calls[i].key != calls[i + 1].key)
  }

  lemma RunPairs(s: seq<KV>, n: nat)
    requires 0 < n <= |s| && forall i :: 0 <= i < n ==> s[i].key == s[0].key
    ensures PairsOf(ReduceCall(s[0].key, ValueList(s[..n]))) == s[..n]
  {
  }

  lemma UngroupCons(first: ReduceCall, rest: seq<ReduceCall>)
    ensures Ungrouped([first] + rest) == PairsOf(first) + Ungrouped(rest)
  {
    assert ([first] + rest)[1..] == rest;
  }

  lemma MaximalCons(first: ReduceCall, rest: seq<ReduceCall>)
    requires Maximal(rest) && first.values != [] && (rest != [] ==> rest[0].key != first.key)
    ensures Maximal([first] + rest)
  {
    var calls := [first] + rest;
    forall i | 0 <= i < |calls| - 1 ensures calls[i].key != calls[i + 1].key {
      assert calls[i + 1] == rest[i];
      assert i > 0 ==> calls[i] == rest[i - 1];
    }
  }

  /** For every list: the calls stand for exactly its pairs in their order, each run of equal keys in one call. */
  lemma {:induction false} GroupingRoundTrip(s: seq<KV>)
    ensures Ungrouped(Grouped(s)) == s && Maximal(Grouped(s))
    ensures s != [] ==> Grouped(s) != [] && Grouped(s)[0].key == s[0].key
    decreases |s|
  {
    if s != [] {
      var n := RunLength(s);
      GroupingRoundTrip(s[n..]);
      OneRunMore(s, n, Grouped(s[n..]));
    }
  }

  /** The first run in front of the calls for the rest. */
  lemma OneRunMore(s: seq<KV>, n: nat, rest: seq<ReduceCall>)
    requires 0 < n <= |s| && (forall i :: 0 <= i < n ==> s[i].key == s[0].key) && (n < |s| ==> s[n].key != s[0].key)
    requires Ungrouped(rest) == s[n..] && Maximal(rest) && (n < |s| ==> rest != [] && rest[0].key == s[n].key)
    requires n == |s| ==> rest == []
    ensures var calls := [ReduceCall(s[0].key, ValueList(s[..n]))] + rest; Ungrouped(calls) == s && Maximal(calls)
  {
    var first := ReduceCall(s[0].key, ValueList(s[..n]));
    RunPairs(s, n);
    UngroupCons(first, rest);
    MaximalCons(first, rest);
    Halves(s, n);
  }

  lemma Halves(s: seq<KV>, n: nat)
    requires n <= |s|
    ensures s[..n] + s[n..] == s
  {
  }

  lemma Reassociate(calls: seq<ReduceCall>, call: ReduceCall, rest: seq<ReduceCall>)
    ensures (calls + [call]) + rest == calls + ([call] + rest)
  {
  }

  /** The group-by-key loop of the sequential program. */
  method GroupByKey(s: seq<KV>) returns (calls: seq<ReduceCall>)
    ensures calls == Grouped(s)
  {
    calls := [];
    var i := 0;
    assert s[0..] == s;
    while i < |s|
      invariant 0 <= i <= |s|
      invariant calls + Grouped(s[i..]) == Grouped(s)
    {
      var j := RunEnd(s, i);
      var values := ValuesBetween(s, i, j);
      GroupStep(s, i, j);
      var call := ReduceCall(s[i].key, values);
      Reassociate(calls, call, Grouped(s[j..]));
      calls := calls + [call];
      i := j;
    }
  }

  // ----- What the calls mean

  ghost predicate SortedByKey(s: seq<KV>) {
    forall i, j :: 0 <= i < j < |s| ==> !Below(s[j].key, s[i].key)
  }

  /** The values of a key, with multiplicity. */
  function ValuesOf(s: seq<KV>, key: string): multiset<string> {
    if s == [] then multiset{}
    else ValuesOf(s[..|s| - 1], key) + if s[|s| - 1].key == key then multiset{s[|s| - 1].value} else multiset{}
  }

  function KeysOf(s: seq<KV>): set<string> {
    set i | 0 <= i < |s| :: s[i].key
  }

  /** The calls as a bag: which key, with which values. */
  function Bag(calls: seq<ReduceCall>): multiset<(string, multiset<string>)> {
    if calls == [] then multiset{}
    else multiset{(calls[0].key, multiset(calls[0].values))} + Bag(calls[1..])
  }

  lemma {:induction false} ValuesCount(s: seq<KV>, key: string, v: string)
    ensures ValuesOf(s, key)[v] == multiset(s)[KV(key, v)]
  {
    if s != [] {
      var m := |s| - 1;
      ValuesCount(s[..m], key, v);
      assert s == s[..m] + [s[m]];
      assert s[m] == KV(s[m].key, s[m].value);
    }
  }

  lemma SameValues(s: seq<KV>, t: seq<KV>, key: string)
    requires forall v :: multiset(s)[KV(key, v)] == multiset(t)[KV(key, v)]
    ensures ValuesOf(s, key) == ValuesOf(t, key)
  {
    forall v ensures ValuesOf(s, key)[v] == ValuesOf(t, key)[v] {
      ValuesCount(s, key, v);
      ValuesCount(t, key, v);
    }
  }

  lemma ValuesSplit(a: seq<KV>, b: seq<KV>, key: string)
    ensures ValuesOf(a + b, key) == ValuesOf(a, key) + ValuesOf(b, key)
  {
    forall v ensures ValuesOf(a + b, key)[v] == (ValuesOf(a, key) + ValuesOf(b, key))[v] {
      ValuesCount(a, key, v);
      ValuesCount(b, key, v);
      ValuesCount(a + b, key, v);
    }
  }

  lemma {:induction false} ValuesAllOne(s: seq<KV>, key: string)
    requires forall i :: 0 <= i < |s| ==> s[i].key == key
    ensures ValuesOf(s, key) == multiset(ValueList(s))
    decreases |s|
  {
    if s != [] {
      var m := |s| - 1;
      ValuesAllOne(s[..m], key);
      assert ValueList(s) == ValueList(s[..m]) + [s[m].value];
    }
  }

  lemma {:induction false} ValuesMissing(s: seq<KV>, key: string)
    ensures key in KeysOf(s) <==> ValuesOf(s, key) != multiset{}
    decreases |s|
  {
    if s != [] {
      var m := |s| - 1;
      ValuesMissing(s[..m], key);
      assert s == s[..m] + [s[m]];
      if key in KeysOf(s) && s[m].key != key {
        var i :| 0 <= i < |s| && s[i].key == key;
        assert s[..m][i].key == key;
      }
      if key in KeysOf(s[..m]) {
        var i :| 0 <= i < m && s[..m][i].key == key;
        assert s[i].key == key;
      }
      if s[m].key == key {
        assert s[m].value in ValuesOf(s, key);
        assert key in KeysOf(s);
      }
    }
  }

  /** In sorted order a key does not come back after its run. */
  lemma RunIsWhole(s: seq<KV>)
    requires s != [] && SortedByKey(s)
    ensures s[0].key !in KeysOf(s[RunLength(s)..]) && SortedByKey(s[RunLength(s)..])
  {
    var n := RunLength(s);
    forall i | 0 <= i < |s[n..]| ensures s[n..][i].key != s[0].key {
      assert s[n..][i] == s[n + i];
      BelowTotal(s[0].key, s[n].key);
    }
  }

  /** What a run of equal keys leaves for the other keys. */
  lemma FirstRun(s: seq<KV>, key: string)
    requires s != [] && SortedByKey(s)
    ensures var n := RunLength(s);
            && (key == s[0].key ==>
                  ValuesOf(s, key) == multiset(ValueList(s[..n])) && ValuesOf(s[n..], key) == multiset{})
            && (key != s[0].key ==> ValuesOf(s, key) == ValuesOf(s[n..], key))
  {
    var n := RunLength(s);
    assert s == s[..n] + s[n..];
    ValuesSplit(s[..n], s[n..], key);
    RunIsWhole(s);
    ValuesMissing(s[n..], key);
    if key == s[0].key {
      ValuesAllOne(s[..n], key);
    } else {
      ValuesMissing(s[..n], key);
    }
  }

  /** Sorted and grouped, each key present is reduced once, with exactly its values. */
  lemma {:induction false} GroupedOnce(s: seq<KV>, key: string, values: multiset<string>)
    requires SortedByKey(s)
    ensures Bag(Grouped(s))[(key, values)] ==
            if values != multiset{} && values == ValuesOf(s, key) then 1 else 0
    decreases |s|
  {
    if s != [] {
      var n := RunLength(s);
      RunIsWhole(s);
      GroupedOnce(s[n..], key, values);
      FirstRun(s, key);
      assert Grouped(s)[1..] == Grouped(s[n..]);
      assert s[0].value == ValueList(s[..n])[0];
      assert s[0].value in multiset(ValueList(s[..n]));
    }
  }

  // ----- All map tasks, all buckets

  function Concat(parts: seq<seq<KV>>): seq<KV> {
    if parts == [] then [] else Concat(parts[..|parts| - 1]) + parts[|parts| - 1]
  }

  /** What reduce task b reads: bucket b of every map task. */
  function BucketInput(maps: seq<seq<KV>>, hash: string -> nat, n: nat, b: nat): seq<KV>
    requires n > 0
  {
    if maps == [] then []
    else BucketInput(maps[..|maps| - 1], hash, n, b) + InBucket(maps[|maps| - 1], hash, n, b)
  }

  lemma {:induction false} BucketCount(s: seq<KV>, hash: string -> nat, n: nat, b: nat, x: KV)
    requires n > 0
    ensures multiset(InBucket(s, hash, n, b))[x] == if BucketOf(hash, n, x.key) == b then multiset(s)[x] else 0
    decreases |s|
  {
    if s != [] {
      var m := |s| - 1;
      BucketCount(s[..m], hash, n, b, x);
      assert s == s[..m] + [s[m]];
    }
  }

  lemma {:induction false} BucketInputCount(maps: seq<seq<KV>>, hash: string -> nat, n: nat, b: nat, x: KV)
    requires n > 0
    ensures multiset(BucketInput(maps, hash, n, b))[x] ==
            if BucketOf(hash, n, x.key) == b then multiset(Concat(maps))[x] else 0
    decreases |maps|
  {
    if maps != [] {
      BucketInputCount(maps[..|maps| - 1], hash, n, b, x);
      BucketCount(maps[|maps| - 1], hash, n, b, x);
    }
  }

  /** The calls of the first b reduce tasks together. */
  function BagOfBuckets(sorted: seq<seq<KV>>, b: nat): multiset<(string, multiset<string>)>
    requires b <= |sorted|
  {
    if b == 0 then multiset{} else BagOfBuckets(sorted, b - 1) + Bag(Grouped(sorted[b - 1]))
  }

  /** Each bucket is some sorted permutation of what its reduce task reads. */
  ghost predicate SortedBuckets(maps: seq<seq<KV>>, hash: string -> nat, n: nat, sorted: seq<seq<KV>>)
    requires n > 0
  {
    |sorted| == n &&
    forall b :: 0 <= b < n ==> SortedByKey(sorted[b]) && multiset(sorted[b]) == multiset(BucketInput(maps, hash, n, b))
  }

  /** A key's values are all in its own bucket. */
  lemma BucketValues(maps: seq<seq<KV>>, hash: string -> nat, n: nat, sorted: seq<seq<KV>>, b: nat, key: string)
    requires n > 0 && SortedBuckets(maps, hash, n, sorted) && b < n
    ensures ValuesOf(sorted[b], key) == if BucketOf(hash, n, key) == b then ValuesOf(Concat(maps), key) else multiset{}
  {
    var s := sorted[b];
    forall v ensures ValuesOf(s, key)[v] ==
                     (if BucketOf(hash, n, key) == b then ValuesOf(Concat(maps), key) else multiset{})[v]
    {
      ValuesCount(s, key, v);
      ValuesCount(Concat(maps), key, v);
      BucketInputCount(maps, hash, n, b, KV(key, v));
    }
  }

  /** What the reduce calls of one bucket say about a key. */
  lemma BagOfOne(maps: seq<seq<KV>>, hash: string -> nat, n: nat, sorted: seq<seq<KV>>, b: nat,
                 key: string, values: multiset<string>)
    requires n > 0 && SortedBuckets(maps, hash, n, sorted) && b < n
    ensures Bag(Grouped(sorted[b]))[(key, values)] ==
            if BucketOf(hash, n, key) == b && values != multiset{} && values == ValuesOf(Concat(maps), key) then 1
            else 0
  {
    BucketValues(maps, hash, n, sorted, b, key);
    GroupedOnce(sorted[b], key, values);
  }

  lemma BagAdds(sorted: seq<seq<KV>>, b: nat, c: (string, multiset<string>))
    requires 0 < b <= |sorted|
    ensures BagOfBuckets(sorted, b)[c] == BagOfBuckets(sorted, b - 1)[c] + Bag(Grouped(sorted[b - 1]))[c]
  {
  }

  lemma {:induction false} BagUpTo(maps: seq<seq<KV>>, hash: string -> nat, n: nat, sorted: seq<seq<KV>>, b: nat,
                                   key: string, values: multiset<string>)
    requires n > 0 && SortedBuckets(maps, hash, n, sorted) && b <= n
    ensures BagOfBuckets(sorted, b)[(key, values)] ==
            if BucketOf(hash, n, key) < b && values != multiset{} && values == ValuesOf(Concat(maps), key) then 1 else 0
    decreases b
  {
    if b > 0 {
      var m := b - 1;
      BagUpTo(maps, hash, n, sorted, m, key, values);
      BagOfOne(maps, hash, n, sorted, m, key, values);
      BagAdds(sorted, b, (key, values));
    }
  }

  /**
   For any hash, any number of reduce tasks and any outputs of the map tasks: the reduce calls of the
   bucketed program are, as a bag of keys with their values, those of the sequential program, however
   ties are ordered by either sort.
   */
  lemma BucketingPreservesMeaning(maps: seq<seq<KV>>, hash: string -> nat, n: nat, sorted: seq<seq<KV>>, all: seq<KV>)
    requires n > 0 && SortedBuckets(maps, hash, n, sorted)
    requires SortedByKey(all) && multiset(all) == multiset(Concat(maps))
    ensures BagOfBuckets(sorted, n) == Bag(Grouped(all))
  {
    forall c: (string, multiset<string>) ensures BagOfBuckets(sorted, n)[c] == Bag(Grouped(all))[c] {
      BagUpTo(maps, hash, n, sorted, n, c.0, c.1);
      GroupedOnce(all, c.0, c.1);
      SameValues(all, Concat(maps), c.0);
      assert c == (c.0, c.1);
    }
  }
}
