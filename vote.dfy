/**
 * Choosing among the buckets of a tally: the ranking by bucket size
 * (Python's stable `sorted(..., key=len, reverse=True)`), the early-stop
 * test made at each checkpoint, and the final majority vote.
 */
module Vote {
  import opened AnswerTally

  /** Largest bucket size, 0 for the empty tally. */
  function MaxSize<K>(t: Tally<K>): (m: nat)
    ensures forall i :: 0 <= i < |t| ==> Size(t[i]) <= m
    ensures t != [] ==> exists i :: 0 <= i < |t| && Size(t[i]) == m
    ensures t == [] ==> m == 0
  {
    if t == [] then 0
    else
      var m := MaxSize(t[1..]);
      if Size(t[0]) >= m then Size(t[0]) else m
  }

  /** The winning bucket: the first-inserted one among those of the largest size. */
  function Leader<K>(t: Tally<K>): (i: nat)
    requires t != []
    ensures i < |t| && Size(t[i]) == MaxSize(t)
    ensures forall j :: 0 <= j < i ==> Size(t[j]) < MaxSize(t)
  {
    if Size(t[0]) >= MaxSize(t[1..]) then 0 else 1 + Leader(t[1..])
  }

  /** Another bucket is as large as the leader: a tie for first place. */
  ghost predicate Tied<K>(t: Tally<K>)
    requires t != []
  {
    exists j :: 0 <= j < |t| && j != Leader(t) && Size(t[j]) == MaxSize(t)
  }

  ghost predicate Descending<K>(s: Tally<K>) {
    forall i, j :: 0 <= i < j < |s| ==> Size(s[i]) >= Size(s[j])
  }

  /**
   * Places `b` in front of the first bucket that is not larger than it, so
   * that `b` comes before every bucket of equal size already in `s`.
   */
  function InsertBySize<K>(b: Bucket<K>, s: Tally<K>): (r: Tally<K>)
    requires Descending(s)
    ensures Descending(r) && |r| == |s| + 1
    ensures multiset(r) == multiset(s) + multiset{b}
    ensures Size(r[0]) == if s == [] || Size(b) >= Size(s[0]) then Size(b) else Size(s[0])
  {
    if s == [] || Size(b) >= Size(s[0]) then
      DescendingCons(b, s);
      [b] + s
    else
      DescendingTail(s);
      var r' := InsertBySize(b, s[1..]);
      DescendingCons(s[0], r');
      assert s == [s[0]] + s[1..];
      [s[0]] + r'
  }

  lemma {:induction false} DescendingTail<K>(s: Tally<K>)
    requires Descending(s) && s != []
    ensures Descending(s[1..])
  {
    forall i, j | 0 <= i < j < |s| - 1
      ensures Size(s[1..][i]) >= Size(s[1..][j])
    {
      assert s[1..][i] == s[i + 1] && s[1..][j] == s[j + 1];
    }
  }

  lemma {:induction false} DescendingCons<K>(x: Bucket<K>, s: Tally<K>)
    requires Descending(s) && (s == [] || Size(x) >= Size(s[0]))
    ensures Descending([x] + s)
  {
    var r := [x] + s;
    forall i, j | 0 <= i < j < |r|
      ensures Size(r[i]) >= Size(r[j])
    {
      if i == 0 {
        assert r[j] == s[j - 1];
        assert Size(s[0]) >= Size(s[j - 1]) || j == 1;
      } else {
        assert r[i] == s[i - 1] && r[j] == s[j - 1];
      }
    }
  }

  /**
   * The tally ranked by decreasing bucket size, equal sizes keeping their
   * insertion order: the result of Python's stable sort with `reverse=True`.
   */
  function SortBySize<K>(t: Tally<K>): (r: Tally<K>)
    ensures Descending(r) && |r| == |t|
    ensures multiset(r) == multiset(t)
  {
    if t == [] then []
    else
      assert t == [t[0]] + t[1..];
      InsertBySize(t[0], SortBySize(t[1..]))
  }

  /** The first bucket of the ranking is the leader. */
  lemma {:induction false} SortHeadIsLeader<K>(t: Tally<K>)
    requires t != []
    ensures SortBySize(t)[0] == t[Leader(t)]
  {
    var rest := t[1..];
    if rest != [] {
      SortHeadIsLeader(rest);
    }
  }

  /** The second bucket of the ranking is as large as the first iff there is a tie. */
  lemma {:induction false} SortSecondShowsTie<K>(t: Tally<K>)
    requires |t| >= 2
    ensures Size(SortBySize(t)[1]) == MaxSize(t) <==> Tied(t)
  {
    if Size(t[0]) >= MaxSize(t[1..]) {
      SecondWhenFirstLeads(t);
    } else {
      if |t| >= 3 {
        SortSecondShowsTie(t[1..]);
      }
      SecondWhenFirstTrails(t);
    }
  }

  lemma {:induction false} SecondWhenFirstLeads<K>(t: Tally<K>)
    requires |t| >= 2 && Size(t[0]) >= MaxSize(t[1..])
    ensures Size(SortBySize(t)[1]) == MaxSize(t) <==> Tied(t)
  {
    var s := SortBySize(t[1..]);
    SortHeadIsLeader(t[1..]);
    assert SortBySize(t) == [t[0]] + s;
    TieWithFirst(t);
  }

  lemma {:induction false} SecondWhenFirstTrails<K>(t: Tally<K>)
    requires |t| >= 2 && Size(t[0]) < MaxSize(t[1..])
    requires |t| >= 3 ==> (Size(SortBySize(t[1..])[1]) == MaxSize(t[1..]) <==> Tied(t[1..]))
    ensures Size(SortBySize(t)[1]) == MaxSize(t) <==> Tied(t)
  {
    var s := SortBySize(t[1..]);
    SortBehindLeader(t);
    var r' := InsertBySize(t[0], s[1..]);
    assert SortBySize(t)[1] == r'[0];
    TieBehindFirst(t);
    if |t| == 2 {
      assert Size(r'[0]) == Size(t[0]) && !Tied(t[1..]);
    } else if Size(t[0]) >= Size(s[1]) {
      assert Size(r'[0]) == Size(t[0]);
    } else {
      assert Size(r'[0]) == Size(s[1]);
    }
  }

  /** A first bucket smaller than the rest's leader is ranked among the others, after that leader. */
  lemma {:induction false} SortBehindLeader<K>(t: Tally<K>)
    requires |t| >= 2 && Size(t[0]) < MaxSize(t[1..])
    ensures var s := SortBySize(t[1..]);
      SortBySize(t) == [s[0]] + InsertBySize(t[0], s[1..])
  {
    var s := SortBySize(t[1..]);
    SortHeadIsLeader(t[1..]);
    assert SortBySize(t) == InsertBySize(t[0], s);
  }

  /** When the first bucket leads, a tie means the rest reach its size. */
  lemma {:induction false} TieWithFirst<K>(t: Tally<K>)
    requires |t| >= 2 && Size(t[0]) >= MaxSize(t[1..])
    ensures Tied(t) <==> MaxSize(t[1..]) == Size(t[0])
  {
    var rest := t[1..];
    assert Leader(t) == 0;
    if MaxSize(rest) == Size(t[0]) {
      assert t[1 + Leader(rest)] == rest[Leader(rest)];
    }
  }

  /** When the first bucket trails, ties are those of the rest. */
  lemma {:induction false} TieBehindFirst<K>(t: Tally<K>)
    requires |t| >= 2 && Size(t[0]) < MaxSize(t[1..])
    ensures Tied(t) <==> Tied(t[1..])
  {
    var rest := t[1..];
    assert Leader(t) == 1 + Leader(rest) && MaxSize(t) == MaxSize(rest);
    if Tied(rest) {
      var j :| 0 <= j < |rest| && j != Leader(rest) && Size(rest[j]) == MaxSize(rest);
      assert t[j + 1] == rest[j];
    }
    if Tied(t) {
      var j :| 0 <= j < |t| && j != Leader(t) && Size(t[j]) == MaxSize(t);
      assert rest[j - 1] == t[j];
    }
  }

  /**
   * The checkpoint test after `requested` completions have been asked for:
   * stop once the largest bucket's share of them reaches `threshold`, unless
   * the runner-up is just as large. An empty tally never stops.
   */
  predicate ShouldStop<K>(t: Tally<K>, requested: nat, threshold: real)
    requires requested > 0
  {
    if t == [] then false
    else
      var ranked := SortBySize(t);
      var maxLen := Size(ranked[0]);
      if (maxLen as real) / (requested as real) >= threshold then
        !(|ranked| >= 2 && maxLen == Size(ranked[1]))
      else
        false
  }

  /** The early-stop rule without the ranking: a clear leader whose share reaches the threshold. */
  lemma {:induction false} EarlyStopRule<K>(t: Tally<K>, requested: nat, threshold: real)
    requires requested > 0
    ensures ShouldStop(t, requested, threshold) <==>
      t != [] && (MaxSize(t) as real) / (requested as real) >= threshold && !Tied(t)
  {
    if t != [] {
      SortHeadIsLeader(t);
      if |t| >= 2 {
        SortSecondShowsTie(t);
      } else {
        assert !Tied(t);
      }
    }
  }

  /**
   * With the threshold at 1, the test stops exactly when every output
   * requested so far has the same answer.
   */
  lemma {:induction false} UnanimousStop<K>(t: Tally<K>, requested: nat)
    requires Valid(t) && requested > 0 && Total(t) == requested
    ensures ShouldStop(t, requested, 1.0) <==> |t| == 1
  {
    EarlyStopRule(t, requested, 1.0);
    if t != [] {
      var i := Leader(t);
      SizeAtMostTotal(t, i);
      if |t| >= 2 {
        var j := if i == 0 then 1 else 0;
        OtherBucketBelowTotal(t, i, j);
        Share(MaxSize(t), requested);
      } else {
        assert t == [t[0]];
        assert MaxSize(t) == requested;
        Share(MaxSize(t), requested);
      }
    }
  }

  /** Two distinct non-empty buckets: neither holds every output. */
  lemma {:induction false} OtherBucketBelowTotal<K>(t: Tally<K>, i: nat, j: nat)
    requires Valid(t) && i < |t| && j < |t| && i != j
    ensures Size(t[i]) < Total(t)
  {
    if i == 0 {
      assert j > 0 && t[j].outputs != [];
      SizeAtMostTotal(t[1..], j - 1);
    } else if j == 0 {
      SizeAtMostTotal(t[1..], i - 1);
    } else {
      OtherBucketBelowTotal(t[1..], i - 1, j - 1);
    }
  }

  /** A share of a whole lies in (0, 1], and is 1 only for the whole itself. */
  lemma {:induction false} Share(part: nat, whole: nat)
    requires 0 < part <= whole
    ensures 0.0 < (part as real) / (whole as real) <= 1.0
    ensures (part as real) / (whole as real) == 1.0 <==> part == whole
  {
    var q := (part as real) / (whole as real);
    assert q * (whole as real) == part as real;
  }

  /** The outcome of sampling: the chosen raw answer and its vote share. */
  datatype Verdict = Verdict(answer: string, confidence: real)

  /**
   * The majority vote: the first output of the top-ranked bucket, with the
   * bucket's share of all tallied outputs as confidence; `("", 0)` for an
   * empty tally.
   */
  function Decide<K>(t: Tally<K>): (v: Verdict)
    requires Valid(t)
    ensures t == [] ==> v == Verdict("", 0.0)
    ensures t != [] ==> v.answer == t[Leader(t)].outputs[0]
    ensures t != [] ==> v.confidence == (MaxSize(t) as real) / (Total(t) as real)
    ensures t != [] ==> 0.0 < v.confidence <= 1.0
  {
    if t == [] then Verdict("", 0.0)
    else
      SortHeadIsLeader(t);
      SizeAtMostTotal(t, Leader(t));
      Share(MaxSize(t), Total(t));
      var top := SortBySize(t)[0];
      Verdict(top.outputs[0], (Size(top) as real) / (Total(t) as real))
  }

  /** How many of the results carry key `k`. */
  ghost function Count<K>(results: seq<string>, key: string -> K, k: K): nat {
    |Filter(results, key, k)|
  }

  /** The vote's answer is the first result carrying the winning key. */
  lemma {:induction false} DecidePicksFirstOfWinningKey<K>(results: seq<string>, key: string -> K)
    requires results != []
    ensures var v := Decide(Build(results, key));
      FirstSeen(results, key, key(v.answer)) < |results| &&
      v.answer == results[FirstSeen(results, key, key(v.answer))]
  {
    LeaderBucketIsWinningKey(results, key);
  }

  /** The vote's confidence is the winning key's share of all results. */
  lemma {:induction false} DecideConfidenceIsShareOfWinningKey<K>(results: seq<string>, key: string -> K)
    requires results != []
    ensures var v := Decide(Build(results, key));
      v.confidence == (Count(results, key, key(v.answer)) as real) / (|results| as real)
  {
    var t := Build(results, key);
    LeaderBucketIsWinningKey(results, key);
    var kl := t[Leader(t)].key;
    assert key(Decide(t).answer) == kl;
    ConfidenceIsShare(t, Count(results, key, kl), |results|);
  }

  /** The vote's confidence, with the leading size and the total named. */
  lemma {:induction false} ConfidenceIsShare<K>(t: Tally<K>, m: nat, n: nat)
    requires Valid(t) && t != [] && m == MaxSize(t) && n == Total(t)
    ensures Decide(t).confidence == (m as real) / (n as real)
  {
  }

  /** No key is carried by more results than the winning one. */
  lemma {:induction false} DecideHasMostVotes<K>(results: seq<string>, key: string -> K)
    requires results != []
    ensures var v := Decide(Build(results, key));
      forall k :: Count(results, key, k) <= Count(results, key, key(v.answer))
  {
    var t := Build(results, key);
    LeaderBucketIsWinningKey(results, key);
    var kl := t[Leader(t)].key;
    forall k
      ensures Count(results, key, k) <= Count(results, key, kl)
    {
      NoKeyOutvotesLeader(results, key, k);
    }
  }

  /** Among keys carried by equally many results, the one seen first wins. */
  lemma {:induction false} DecideBreaksTiesByFirstSeen<K>(results: seq<string>, key: string -> K)
    requires results != []
    ensures var v := Decide(Build(results, key));
      forall k {:trigger FirstSeen(results, key, k)} ::
        k != key(v.answer) && Count(results, key, k) == Count(results, key, key(v.answer)) ==>
          FirstSeen(results, key, key(v.answer)) < FirstSeen(results, key, k)
  {
    var t := Build(results, key);
    LeaderBucketIsWinningKey(results, key);
    var kl := t[Leader(t)].key;
    forall k | k != kl && Count(results, key, k) == Count(results, key, kl)
      ensures FirstSeen(results, key, kl) < FirstSeen(results, key, k)
    {
      EqualKeyCameLater(results, key, k);
    }
  }

  /** The leading bucket holds every result with its key; the vote returns the first of them. */
  lemma {:induction false} LeaderBucketIsWinningKey<K>(results: seq<string>, key: string -> K)
    requires results != []
    ensures Build(results, key) != []
    ensures var t := Build(results, key); var kl := t[Leader(t)].key;
      && key(Decide(t).answer) == kl
      && FirstSeen(results, key, kl) < |results|
      && Decide(t).answer == results[FirstSeen(results, key, kl)]
      && Count(results, key, kl) == MaxSize(t)
  {
    var t := Build(results, key);
    BuildGroupsByKey(results, key);
    assert Total(t) == |results|;
    var l := Leader(t);
    var kl := t[l].key;
    assert t[l].outputs == Filter(results, key, kl);
    FilterStartsAtFirstSeen(results, key, kl);
  }

  /** No key is carried by more results than the leading bucket's key. */
  lemma {:induction false} NoKeyOutvotesLeader<K>(results: seq<string>, key: string -> K, k: K)
    requires results != []
    ensures Build(results, key) != []
    ensures Count(results, key, k) <= MaxSize(Build(results, key))
  {
    var t := Build(results, key);
    BuildGroupsByKey(results, key);
    assert Total(t) == |results|;
    var i := Find(t, k);
    if i < |t| {
      assert t[i].outputs == Filter(results, key, k);
    }
  }

  /** Another key carried by as many results as the leading one first appears later. */
  lemma {:induction false} EqualKeyCameLater<K>(results: seq<string>, key: string -> K, k: K)
    requires results != []
    requires Build(results, key) != []
    requires var t := Build(results, key); k != t[Leader(t)].key && Count(results, key, k) == MaxSize(t)
    ensures var t := Build(results, key);
      FirstSeen(results, key, t[Leader(t)].key) < FirstSeen(results, key, k)
  {
    var t := Build(results, key);
    BuildGroupsByKey(results, key);
    BuildKeepsFirstSeenOrder(results, key);
    assert Total(t) == |results|;
    var l := Leader(t);
    var i := Find(t, k);
    assert i < |t|;
    assert t[i].outputs == Filter(results, key, k);
    assert i != l && Size(t[i]) == MaxSize(t);
    assert l < i;
  }
}
