/**
 * The answer tally of one world-model step: an insertion-ordered mapping
 * from an extracted answer to the list of stripped model outputs that
 * produced it (a `defaultdict(list)` whose keys keep the order in which
 * they were first seen).
 */
module AnswerTally {

  /** One entry of the tally: an answer key and its outputs, in arrival order. */
  datatype Bucket<K> = Bucket(key: K, outputs: seq<string>)

  /** Buckets in the order their keys were first inserted. */
  type Tally<K> = seq<Bucket<K>>

  function Size<K>(b: Bucket<K>): nat {
    |b.outputs|
  }

  /** Number of outputs recorded over all buckets. */
  function Total<K>(t: Tally<K>): nat {
    if t == [] then 0 else Size(t[0]) + Total(t[1..])
  }

  /** Keys are distinct and no bucket is empty. */
  ghost predicate Valid<K>(t: Tally<K>) {
    && (forall i, j :: 0 <= i < j < |t| ==> t[i].key != t[j].key)
    && (forall i :: 0 <= i < |t| ==> t[i].outputs != [])
  }

  /** Position of the bucket keyed `k`, or `|t|` when there is none. */
  function Find<K(==)>(t: Tally<K>, k: K): (i: nat)
    ensures i <= |t|
    ensures i < |t| ==> t[i].key == k
    ensures forall j :: 0 <= j < i && j < |t| ==> t[j].key != k
  {
    if t == [] then 0 else if t[0].key == k then 0 else 1 + Find(t[1..], k)
  }

  lemma {:induction false} TotalUpdate<K>(t: Tally<K>, i: nat, b: Bucket<K>)
    requires i < |t|
    ensures Total(t[i := b]) == Total(t) - Size(t[i]) + Size(b)
  {
    if i > 0 {
      assert t[i := b][1..] == t[1..][i - 1 := b];
      TotalUpdate(t[1..], i - 1, b);
    }
  }

  lemma {:induction false} TotalAppend<K>(t: Tally<K>, b: Bucket<K>)
    ensures Total(t + [b]) == Total(t) + Size(b)
  {
    if t != [] {
      assert (t + [b])[1..] == t[1..] + [b];
      TotalAppend(t[1..], b);
    }
  }

  /** A bucket holds no more outputs than the whole tally. */
  lemma {:induction false} SizeAtMostTotal<K>(t: Tally<K>, i: nat)
    requires i < |t|
    ensures Size(t[i]) <= Total(t)
  {
    if i > 0 {
      SizeAtMostTotal(t[1..], i - 1);
    }
  }

  /**
   * `answer_dict[answer].append(result)`: the output goes to the end of the
   * bucket keyed `k`, which is created at the end of the tally when absent.
   * Exactly one bucket changes.
   */
  function Add<K(==)>(t: Tally<K>, k: K, out: string): (r: Tally<K>)
    requires Valid(t)
    ensures Valid(r) && Total(r) == Total(t) + 1
    ensures forall i :: 0 <= i < |t| && t[i].key == k ==>
              r == t[i := Bucket(k, t[i].outputs + [out])]
    ensures (forall i :: 0 <= i < |t| ==> t[i].key != k) ==> r == t + [Bucket(k, [out])]
  {
    var i := Find(t, k);
    if i < |t| then
      TotalUpdate(t, i, Bucket(k, t[i].outputs + [out]));
      t[i := Bucket(k, t[i].outputs + [out])]
    else
      TotalAppend(t, Bucket(k, [out]));
      t + [Bucket(k, [out])]
  }

  /** The tally after recording `results`, in order, under the keys `key` extracts. */
  function Build<K(==)>(results: seq<string>, key: string -> K): (t: Tally<K>)
    ensures Valid(t) && Total(t) == |results|
  {
    if results == [] then []
    else
      var last := results[|results| - 1];
      Add(Build(results[..|results| - 1], key), key(last), last)
  }

  /** Recording one more result is one `Add` on the tally so far. */
  lemma {:induction false} BuildSnoc<K>(results: seq<string>, x: string, key: string -> K)
    ensures Build(results + [x], key) == Add(Build(results, key), key(x), x)
  {
    assert (results + [x])[..|results|] == results;
  }

  /** The results whose key is `k`, in order. */
  function Filter<K(==)>(results: seq<string>, key: string -> K, k: K): seq<string> {
    if results == [] then []
    else
      var last := results[|results| - 1];
      Filter(results[..|results| - 1], key, k) + (if key(last) == k then [last] else [])
  }

  /** Position of the first result whose key is `k`, or `|results|` when there is none. */
  function FirstSeen<K(==)>(results: seq<string>, key: string -> K, k: K): (p: nat)
    ensures p <= |results|
    ensures p < |results| ==> key(results[p]) == k
    ensures forall q :: 0 <= q < p && q < |results| ==> key(results[q]) != k
  {
    if results == [] then 0
    else
      var p := FirstSeen(results[..|results| - 1], key, k);
      if p < |results| - 1 then p
      else if key(results[|results| - 1]) == k then |results| - 1
      else |results|
  }

  /** Bucket i holds, in order, all and only the results whose key is bucket i's key. */
  ghost predicate GroupedByKey<K>(results: seq<string>, key: string -> K) {
    forall i :: 0 <= i < |Build(results, key)| ==>
      Build(results, key)[i].outputs == Filter(results, key, Build(results, key)[i].key)
  }

  /**
   * The tally groups the results exactly by key, and a key has a bucket iff
   * some result carries it.
   */
  lemma {:induction false} BuildGroupsByKey<K>(results: seq<string>, key: string -> K)
    ensures GroupedByKey(results, key)
    ensures forall k {:trigger Find(Build(results, key), k)} ::
      Find(Build(results, key), k) < |Build(results, key)| <==> Filter(results, key, k) != []
  {
    if results != [] {
      var prev := results[..|results| - 1];
      var last := results[|results| - 1];
      BuildGroupsByKey(prev, key);
      if Find(Build(prev, key), key(last)) < |Build(prev, key)| {
        GroupedAfterKnownKey(results, key);
        KeysAfterKnownKey(results, key);
      } else {
        GroupedAfterNewKey(results, key);
        KeysAfterNewKey(results, key);
      }
    }
  }

  /** Recording a result whose key already has a bucket keeps the grouping. */
  lemma {:induction false} GroupedAfterKnownKey<K>(results: seq<string>, key: string -> K)
    requires results != []
    requires GroupedByKey(results[..|results| - 1], key)
    requires Find(Build(results[..|results| - 1], key), key(results[|results| - 1])) <
      |Build(results[..|results| - 1], key)|
    requires forall k {:trigger Find(Build(results[..|results| - 1], key), k)} ::
      Find(Build(results[..|results| - 1], key), k) < |Build(results[..|results| - 1], key)| <==>
        Filter(results[..|results| - 1], key, k) != []
    ensures GroupedByKey(results, key)
  {
    var prev := results[..|results| - 1];
    var last := results[|results| - 1];
    var t0 := Build(prev, key);
    var t := Build(results, key);
    var j := Find(t0, key(last));
    assert t == t0[j := Bucket(key(last), t0[j].outputs + [last])];
    forall i | 0 <= i < |t|
      ensures t[i].outputs == Filter(results, key, t[i].key)
    {
      if i != j {
        assert t0[i].key != key(last);
      }
    }
  }

  /** Recording a result with a known key leaves the set of keys with buckets as the keys seen. */
  lemma {:induction false} KeysAfterKnownKey<K>(results: seq<string>, key: string -> K)
    requires results != []
    requires Find(Build(results[..|results| - 1], key), key(results[|results| - 1])) <
      |Build(results[..|results| - 1], key)|
    requires forall k {:trigger Find(Build(results[..|results| - 1], key), k)} ::
      Find(Build(results[..|results| - 1], key), k) < |Build(results[..|results| - 1], key)| <==>
        Filter(results[..|results| - 1], key, k) != []
    ensures forall k {:trigger Find(Build(results, key), k)} ::
      Find(Build(results, key), k) < |Build(results, key)| <==> Filter(results, key, k) != []
  {
    var prev := results[..|results| - 1];
    var last := results[|results| - 1];
    var t0 := Build(prev, key);
    var t := Build(results, key);
    var j := Find(t0, key(last));
    assert t == t0[j := Bucket(key(last), t0[j].outputs + [last])];
    forall k
      ensures Find(t, k) < |t| <==> Filter(results, key, k) != []
    {
      if Find(t0, k) < |t0| {
        assert t[Find(t0, k)].key == k;
      }
      if Find(t, k) < |t| {
        assert t0[Find(t, k)].key == k;
      }
    }
  }

  /** Recording a result with an unseen key opens a bucket at the end and keeps the grouping. */
  lemma {:induction false} GroupedAfterNewKey<K>(results: seq<string>, key: string -> K)
    requires results != []
    requires GroupedByKey(results[..|results| - 1], key)
    requires Find(Build(results[..|results| - 1], key), key(results[|results| - 1])) ==
      |Build(results[..|results| - 1], key)|
    requires forall k {:trigger Find(Build(results[..|results| - 1], key), k)} ::
      Find(Build(results[..|results| - 1], key), k) < |Build(results[..|results| - 1], key)| <==>
        Filter(results[..|results| - 1], key, k) != []
    ensures GroupedByKey(results, key)
  {
    var prev := results[..|results| - 1];
    var last := results[|results| - 1];
    var t0 := Build(prev, key);
    var t := Build(results, key);
    assert t == t0 + [Bucket(key(last), [last])];
    assert Filter(prev, key, key(last)) == [];
    forall i | 0 <= i < |t|
      ensures t[i].outputs == Filter(results, key, t[i].key)
    {
      if i < |t0| {
        assert t0[i].key != key(last);
      }
    }
  }

  /** Recording a result with an unseen key adds exactly that key to the keys with buckets. */
  lemma {:induction false} KeysAfterNewKey<K>(results: seq<string>, key: string -> K)
    requires results != []
    requires Find(Build(results[..|results| - 1], key), key(results[|results| - 1])) ==
      |Build(results[..|results| - 1], key)|
    requires forall k {:trigger Find(Build(results[..|results| - 1], key), k)} ::
      Find(Build(results[..|results| - 1], key), k) < |Build(results[..|results| - 1], key)| <==>
        Filter(results[..|results| - 1], key, k) != []
    ensures forall k {:trigger Find(Build(results, key), k)} ::
      Find(Build(results, key), k) < |Build(results, key)| <==> Filter(results, key, k) != []
  {
    var prev := results[..|results| - 1];
    var last := results[|results| - 1];
    var t0 := Build(prev, key);
    var t := Build(results, key);
    assert t == t0 + [Bucket(key(last), [last])];
    forall k
      ensures Find(t, k) < |t| <==> Filter(results, key, k) != []
    {
      assert Filter(results, key, k) == Filter(prev, key, k) + (if key(last) == k then [last] else []);
      if Find(t0, k) < |t0| {
        assert t[Find(t0, k)].key == k;
      } else if k == key(last) {
        assert t[|t0|].key == k;
      }
    }
  }

  /**
   * Buckets stand in the order in which their keys first occur among the
   * results, and every bucket's key does occur.
   */
  ghost predicate InFirstSeenOrder<K>(results: seq<string>, key: string -> K) {
    && (forall i, j :: 0 <= i < j < |Build(results, key)| ==>
          FirstSeen(results, key, Build(results, key)[i].key) < FirstSeen(results, key, Build(results, key)[j].key))
    && (forall i :: 0 <= i < |Build(results, key)| ==>
          FirstSeen(results, key, Build(results, key)[i].key) < |results|)
  }

  lemma {:induction false} BuildKeepsFirstSeenOrder<K>(results: seq<string>, key: string -> K)
    ensures InFirstSeenOrder(results, key)
  {
    if results != [] {
      var prev := results[..|results| - 1];
      var last := results[|results| - 1];
      BuildKeepsFirstSeenOrder(prev, key);
      if Find(Build(prev, key), key(last)) < |Build(prev, key)| {
        OrderAfterKnownKey(results, key);
      } else {
        BuildGroupsByKey(prev, key);
        if FirstSeen(prev, key, key(last)) < |prev| {
          FilterHasFirstSeen(prev, key, key(last));
        }
        OrderAfterNewKey(results, key);
      }
    }
  }

  lemma {:induction false} OrderAfterKnownKey<K>(results: seq<string>, key: string -> K)
    requires results != []
    requires InFirstSeenOrder(results[..|results| - 1], key)
    requires Find(Build(results[..|results| - 1], key), key(results[|results| - 1])) <
      |Build(results[..|results| - 1], key)|
    ensures InFirstSeenOrder(results, key)
  {
    var prev := results[..|results| - 1];
    var last := results[|results| - 1];
    var t0 := Build(prev, key);
    var t := Build(results, key);
    var j := Find(t0, key(last));
    assert t == t0[j := Bucket(key(last), t0[j].outputs + [last])];
    forall i | 0 <= i < |t|
      ensures t[i].key == t0[i].key
      ensures FirstSeen(results, key, t[i].key) == FirstSeen(prev, key, t0[i].key)
    {
      assert |t| == |t0|;
      var b := t0[i];
      assert FirstSeen(prev, key, b.key) < |prev|;
    }
  }

  lemma {:induction false} OrderAfterNewKey<K>(results: seq<string>, key: string -> K)
    requires results != []
    requires InFirstSeenOrder(results[..|results| - 1], key)
    requires Find(Build(results[..|results| - 1], key), key(results[|results| - 1])) ==
      |Build(results[..|results| - 1], key)|
    requires FirstSeen(results[..|results| - 1], key, key(results[|results| - 1])) == |results| - 1
    ensures InFirstSeenOrder(results, key)
  {
    var prev := results[..|results| - 1];
    var last := results[|results| - 1];
    var t0 := Build(prev, key);
    var t := Build(results, key);
    assert t == t0 + [Bucket(key(last), [last])];
    assert FirstSeen(results, key, key(last)) == |prev|;
    forall i | 0 <= i < |t0|
      ensures FirstSeen(results, key, t[i].key) == FirstSeen(prev, key, t0[i].key) < |prev|
    {
      assert t[i] == t0[i];
    }
    forall i, j | 0 <= i < j < |t|
      ensures FirstSeen(results, key, t[i].key) < FirstSeen(results, key, t[j].key)
    {
      if j < |t0| {
        assert FirstSeen(prev, key, t0[i].key) < FirstSeen(prev, key, t0[j].key);
      }
    }
  }

  /** A result whose key is `k` puts `k` into the filtered list. */
  lemma {:induction false} FilterHasFirstSeen<K>(results: seq<string>, key: string -> K, k: K)
    requires FirstSeen(results, key, k) < |results|
    ensures Filter(results, key, k) != []
  {
    var prev := results[..|results| - 1];
    if FirstSeen(prev, key, k) < |prev| {
      FilterHasFirstSeen(prev, key, k);
    }
  }

  /** The filtered results begin with the first result carrying `k`, and all carry `k`. */
  lemma {:induction false} FilterStartsAtFirstSeen<K>(results: seq<string>, key: string -> K, k: K)
    ensures forall x :: x in Filter(results, key, k) ==> key(x) == k
    ensures Filter(results, key, k) != [] ==>
      FirstSeen(results, key, k) < |results| && Filter(results, key, k)[0] == results[FirstSeen(results, key, k)]
  {
    if results != [] {
      var prev := results[..|results| - 1];
      FilterStartsAtFirstSeen(prev, key, k);
      if FirstSeen(prev, key, k) < |prev| {
        FilterHasFirstSeen(prev, key, k);
      }
    }
  }
}
