/**
 * The sampling half of a world-model step: completions for one prompt are
 * requested batch by batch inside early-stop groups, tallied by extracted
 * answer, and the tally is checked at the end of every group; the vote over
 * what was drawn gives the step's answer and confidence.
 *
 * The language model is an oracle: `completions` is the stream of sampled
 * continuations it yields for the prompt, in request order, so a request for
 * positions `[start, stop)` receives `completions[start..stop]`.
 */
module Sampler {
  import opened AnswerTally
  import opened Vote

  /**
   * The sampling parameters of a world model: how many completions at most,
   * how many per generate call, after how many to test for an early stop,
   * and the share the leading answer needs for it.
   */
  datatype Budget = Budget(nConfidence: nat, batchSize: nat, earlyStopBase: nat, threshold: real)

  /**
   * The sampler's `range` calls do not fail: the group step is always built,
   * the batch step only once some completion is to be drawn.
   */
  predicate Runnable(b: Budget) {
    b.earlyStopBase > 0 && (b.nConfidence > 0 ==> b.batchSize > 0)
  }

  function Min(x: nat, y: nat): (m: nat)
    ensures m <= x && m <= y && (m == x || m == y)
  {
    if x <= y then x else y
  }

  /** Every completion with surrounding white space removed. */
  function Stripped(outputs: seq<string>, strip: string -> string): (rs: seq<string>)
    ensures |rs| == |outputs|
    ensures forall i :: 0 <= i < |outputs| ==> rs[i] == strip(outputs[i])
  {
    seq(|outputs|, i requires 0 <= i < |outputs| => strip(outputs[i]))
  }

  /** `x` is a whole number of steps `d` from zero: one of the values `range(0, _, d)` visits. */
  predicate OnGrid(x: nat, d: nat)
    requires d > 0
    decreases x
  {
    x == 0 || (x >= d && OnGrid(x - d, d))
  }

  /** The next grid point after one is a step further. */
  lemma {:induction false} GridStep(x: nat, d: nat)
    requires d > 0 && OnGrid(x, d)
    ensures OnGrid(x + d, d)
  {
    assert x + d - d == x;
  }

  /** Distinct grid points lie at least a step apart. */
  lemma {:induction false} GridPointsApart(x: nat, y: nat, d: nat)
    requires d > 0 && OnGrid(x, d) && OnGrid(y, d) && x < y
    ensures x + d <= y
    decreases x
  {
    if x > 0 {
      GridPointsApart(x - d, y - d, d);
    }
  }

  /** Strictly inside an early-stop group lies no checkpoint. */
  lemma {:induction false} NoCheckpointInsideGroup(d: nat, start1: nat, stop1: nat)
    requires d > 0 && OnGrid(start1, d) && stop1 <= start1 + d
    ensures forall c :: start1 < c < stop1 ==> !OnGrid(c, d)
  {
    forall c | start1 < c < stop1
      ensures !OnGrid(c, d)
    {
      if OnGrid(c, d) {
        GridPointsApart(start1, c, d);
      }
    }
  }

  /**
   * The early-stop test at checkpoint `c`, on the tally of the first `c`
   * stripped completions.
   */
  function CheckpointTest<K(==)>(b: Budget, rs: seq<string>, key: string -> K): nat -> bool {
    c => 0 < c <= |rs| && ShouldStop(Build(rs[..c], key), c, b.threshold)
  }

  /**
   * How many completions the sampler draws in all when `done` have been drawn
   * and no checkpoint so far has stopped it: the next checkpoint is the end
   * of the next group, and the sampler stops there when `test` passes.
   */
  function StopPoint(b: Budget, test: nat -> bool, done: nat): (sp: nat)
    requires Runnable(b) && done <= b.nConfidence
    ensures done <= sp <= b.nConfidence
    ensures done < b.nConfidence ==> done < sp
    decreases b.nConfidence - done
  {
    if done == b.nConfidence then done
    else
      var stop1 := Min(done + b.earlyStopBase, b.nConfidence);
      if test(stop1) then stop1 else StopPoint(b, test, stop1)
  }

  /** The answer and confidence a step records: the vote over the completions drawn. */
  function Outcome<K(==)>(b: Budget, completions: seq<string>, strip: string -> string,
                          key: string -> K): (v: Verdict)
    requires Runnable(b) && b.nConfidence <= |completions|
    ensures b.nConfidence == 0 ==> v == Verdict("", 0.0)
    ensures b.nConfidence > 0 ==> 0.0 < v.confidence <= 1.0
  {
    var rs := Stripped(completions, strip);
    Decide(Build(rs[..StopPoint(b, CheckpointTest(b, rs, key), 0)], key))
  }

  /**
   * `d` completions are where the sampler stops: at the end of the budget or
   * at a checkpoint (a multiple of the early-stop base), at a checkpoint
   * only when its test passes, and never after a checkpoint whose test passed.
   */
  ghost predicate StopsFirstAt(b: Budget, test: nat -> bool, d: nat)
    requires Runnable(b)
  {
    && d <= b.nConfidence
    && (d == b.nConfidence || OnGrid(d, b.earlyStopBase))
    && (d < b.nConfidence ==> 0 < d && test(d))
    && (forall c {:trigger test(c)} :: 0 < c < d && OnGrid(c, b.earlyStopBase) ==> !test(c))
  }

  /**
   * Drawing on from `done` completions, the sampler stops at the first
   * checkpoint after `done` that passes, or at the end of the budget.
   */
  lemma {:induction false} StopPointStopsFirst(b: Budget, test: nat -> bool, done: nat)
    requires Runnable(b) && done <= b.nConfidence
    requires done == b.nConfidence || OnGrid(done, b.earlyStopBase)
    ensures StopPoint(b, test, done) == b.nConfidence ||
            OnGrid(StopPoint(b, test, done), b.earlyStopBase)
    ensures StopPoint(b, test, done) < b.nConfidence ==>
            0 < StopPoint(b, test, done) && test(StopPoint(b, test, done))
    ensures forall c {:trigger test(c)} ::
      done < c < StopPoint(b, test, done) && OnGrid(c, b.earlyStopBase) ==> !test(c)
    decreases b.nConfidence - done
  {
    if done < b.nConfidence {
      var stop1 := Min(done + b.earlyStopBase, b.nConfidence);
      NoCheckpointInsideGroup(b.earlyStopBase, done, stop1);
      GridStep(done, b.earlyStopBase);
      if !test(stop1) {
        StopPointStopsFirst(b, test, stop1);
      }
    }
  }

  /** The stop point is where the sampler stops when it starts with nothing drawn. */
  lemma {:induction false} StopPointIsAStop(b: Budget, test: nat -> bool)
    requires Runnable(b)
    ensures StopsFirstAt(b, test, StopPoint(b, test, 0))
  {
    StopPointStopsFirst(b, test, 0);
  }

  /** Conversely, any place where the sampler may stop is the stop point. */
  lemma {:induction false} FirstStopIsStopPoint(b: Budget, test: nat -> bool, done: nat, d: nat)
    requires Runnable(b) && done <= b.nConfidence
    requires done == b.nConfidence || OnGrid(done, b.earlyStopBase)
    requires StopsFirstAt(b, test, d) && (done < d || done == d == b.nConfidence)
    ensures StopPoint(b, test, done) == d
    decreases b.nConfidence - done
  {
    if done < b.nConfidence {
      var stop1 := Min(done + b.earlyStopBase, b.nConfidence);
      NoCheckpointInsideGroup(b.earlyStopBase, done, stop1);
      GridStep(done, b.earlyStopBase);
      if stop1 < d {
        assert OnGrid(stop1, b.earlyStopBase) && !test(stop1);
        FirstStopIsStopPoint(b, test, stop1, d);
      } else if stop1 == d {
        if !test(stop1) {
          FirstStopIsStopPoint(b, test, stop1, d);
        }
      } else {
        assert false;
      }
    }
  }

  /** With the default early-stop base (the whole budget) every completion is drawn. */
  lemma {:induction false} DefaultBaseDrawsAll(b: Budget, test: nat -> bool)
    requires Runnable(b) && b.earlyStopBase >= b.nConfidence
    ensures StopPoint(b, test, 0) == b.nConfidence
  {
  }

  /** The tally after `c` completions has a clear leader holding the threshold share. */
  ghost predicate Confident<K>(b: Budget, rs: seq<string>, key: string -> K, c: nat)
    requires c <= |rs|
  {
    && Build(rs[..c], key) != []
    && (MaxSize(Build(rs[..c], key)) as real) / (c as real) >= b.threshold
    && !Tied(Build(rs[..c], key))
  }

  /** A checkpoint passes exactly when its tally has a clear leader holding the threshold share. */
  lemma {:induction false} CheckpointPassesIffConfident<K>(b: Budget, rs: seq<string>, key: string -> K, c: nat)
    requires 0 < c <= |rs|
    ensures CheckpointTest(b, rs, key)(c) <==> Confident(b, rs, key, c)
  {
    EarlyStopRule(Build(rs[..c], key), c, b.threshold);
  }

  /** With threshold 1 a checkpoint passes exactly when every completion so far has the same answer. */
  lemma {:induction false} UnanimousCheckpoint<K>(b: Budget, rs: seq<string>, key: string -> K, c: nat)
    requires 0 < c <= |rs| && b.threshold == 1.0
    ensures CheckpointTest(b, rs, key)(c) <==> |Build(rs[..c], key)| == 1
  {
    UnanimousStop(Build(rs[..c], key), c);
  }

  /**
   * The recorded answer is the first drawn completion carrying the most
   * frequent answer among those drawn, earlier-seen answers winning ties,
   * and the confidence is that answer's share of the completions drawn.
   */
  lemma {:induction false} OutcomeIsPluralityOfDrawn<K>(b: Budget, completions: seq<string>,
                                     strip: string -> string, key: string -> K)
    requires Runnable(b) && 0 < b.nConfidence <= |completions|
    ensures var all := Stripped(completions, strip);
      var rs := all[..StopPoint(b, CheckpointTest(b, all, key), 0)];
      var v := Outcome(b, completions, strip, key);
      && FirstSeen(rs, key, key(v.answer)) < |rs|
      && v.answer == rs[FirstSeen(rs, key, key(v.answer))]
      && v.confidence == (Count(rs, key, key(v.answer)) as real) / (|rs| as real)
      && (forall k :: Count(rs, key, k) <= Count(rs, key, key(v.answer)))
      && (forall k :: k != key(v.answer) && Count(rs, key, k) == Count(rs, key, key(v.answer)) ==>
            FirstSeen(rs, key, key(v.answer)) < FirstSeen(rs, key, k))
  {
    var all := Stripped(completions, strip);
    var rs := all[..StopPoint(b, CheckpointTest(b, all, key), 0)];
    var v := Outcome(b, completions, strip, key);
    assert rs != [];
    DecidePicksFirstOfWinningKey(rs, key);
    DecideConfidenceIsShareOfWinningKey(rs, key);
    DecideHasMostVotes(rs, key);
    DecideBreaksTiesByFirstSeen(rs, key);
  }

  /** One generate call: positions `[start, stop)` of the stream, inside the group starting at `group`. */
  datatype Request = Request(group: nat, start: nat, stop: nat)

  /**
   * A call the sampler can make: its group starts at a multiple of the
   * early-stop base, it starts inside the group, and it asks for a full batch
   * unless the group (or the whole budget) ends first.
   */
  predicate Scheduled(b: Budget, r: Request)
    requires Runnable(b)
  {
    && OnGrid(r.group, b.earlyStopBase)
    && r.group <= r.start
    && r.start < Min(r.group + b.earlyStopBase, b.nConfidence)
    && r.stop == Min(r.start + b.batchSize, Min(r.group + b.earlyStopBase, b.nConfidence))
  }

  /**
   * The calls made, in order, are scheduled and request the positions
   * `[from, to)` back to back.
   */
  ghost predicate Batched(b: Budget, calls: seq<Request>, from: nat, to: nat)
    requires Runnable(b)
  {
    && (calls == [] ==> from == to)
    && (calls != [] ==> calls[0].start == from && calls[|calls| - 1].stop == to)
    && (forall i :: 0 < i < |calls| ==> calls[i - 1].stop == calls[i].start)
    && (forall i :: 0 <= i < |calls| ==> Scheduled(b, calls[i]))
  }

  /** Calls that go on where others stopped extend them. */
  lemma {:induction false} BatchedAppend(b: Budget, calls: seq<Request>, from: nat, mid: nat,
                                         more: seq<Request>, to: nat)
    requires Runnable(b) && Batched(b, calls, from, mid) && Batched(b, more, mid, to)
    ensures Batched(b, calls + more, from, to)
  {
    var all := calls + more;
    forall i | 0 < i < |all|
      ensures all[i - 1].stop == all[i].start
    {
      if i < |calls| {
        assert all[i - 1] == calls[i - 1] && all[i] == calls[i];
      } else if i == |calls| {
        assert all[i - 1] == calls[i - 1] && all[i] == more[0];
      } else {
        assert all[i - 1] == more[i - 1 - |calls|] && all[i] == more[i - |calls|];
      }
    }
    forall i | 0 <= i < |all|
      ensures Scheduled(b, all[i])
    {
      if i < |calls| {
        assert all[i] == calls[i];
      } else {
        assert all[i] == more[i - |calls|];
      }
    }
  }

  /**
   * The generate calls of one group starting at `group`, from position
   * `start` up to the group's checkpoint `stop1`: a batch at a time, the last
   * one cut short at the checkpoint.
   */
  function GroupCalls(b: Budget, group: nat, start: nat, stop1: nat): seq<Request>
    requires Runnable(b) && stop1 <= b.nConfidence
    decreases stop1 - start
  {
    if start >= stop1 then []
    else [Request(group, start, Min(start + b.batchSize, stop1))] + GroupCalls(b, group, start + b.batchSize, stop1)
  }

  /** The calls of a group are scheduled and cover the rest of the group. */
  lemma {:induction false} GroupCallsBatched(b: Budget, group: nat, start: nat)
    requires Runnable(b) && OnGrid(group, b.earlyStopBase)
    requires group <= start <= Min(group + b.earlyStopBase, b.nConfidence)
    ensures Batched(b, GroupCalls(b, group, start, Min(group + b.earlyStopBase, b.nConfidence)),
                    start, Min(group + b.earlyStopBase, b.nConfidence))
    decreases Min(group + b.earlyStopBase, b.nConfidence) - start
  {
    var stop1 := Min(group + b.earlyStopBase, b.nConfidence);
    if start < stop1 {
      var r := Request(group, start, Min(start + b.batchSize, stop1));
      assert Scheduled(b, r);
      assert Batched(b, [r], start, r.stop);
      if start + b.batchSize < stop1 {
        GroupCallsBatched(b, group, start + b.batchSize);
        BatchedAppend(b, [r], start, r.stop, GroupCalls(b, group, start + b.batchSize, stop1), stop1);
      } else {
        assert GroupCalls(b, group, start, stop1) == [r];
      }
    }
  }

  /**
   * The calls the sampler makes when `done` completions have been drawn and
   * no checkpoint so far has stopped it: the calls of the next group, then,
   * unless `test` passes at its checkpoint, those of the groups after it.
   */
  function CallsFrom(b: Budget, test: nat -> bool, done: nat): seq<Request>
    requires Runnable(b) && done <= b.nConfidence
    decreases b.nConfidence - done
  {
    if done == b.nConfidence then []
    else
      var stop1 := Min(done + b.earlyStopBase, b.nConfidence);
      GroupCalls(b, done, done, stop1) + (if test(stop1) then [] else CallsFrom(b, test, stop1))
  }

  /**
   * Every call is scheduled (it starts inside a group that begins at a
   * multiple of the early-stop base, and asks for a batch unless the group
   * ends first), and together the calls request exactly the completions
   * drawn, back to back.
   */
  lemma {:induction false} CallsFromBatched(b: Budget, test: nat -> bool, done: nat)
    requires Runnable(b) && done <= b.nConfidence
    requires done == b.nConfidence || OnGrid(done, b.earlyStopBase)
    ensures Batched(b, CallsFrom(b, test, done), done, StopPoint(b, test, done))
    decreases b.nConfidence - done
  {
    if done < b.nConfidence {
      var stop1 := Min(done + b.earlyStopBase, b.nConfidence);
      GroupCallsBatched(b, done, done);
      if test(stop1) {
        assert CallsFrom(b, test, done) == GroupCalls(b, done, done, stop1) + [];
      } else {
        GridStep(done, b.earlyStopBase);
        CallsFromBatched(b, test, stop1);
        BatchedAppend(b, GroupCalls(b, done, done, stop1), done, stop1,
                      CallsFrom(b, test, stop1), StopPoint(b, test, done));
      }
    }
  }

  /**
   * After the calls `before` and a group from `done` whose checkpoint passes,
   * the sampler has made all its calls and stops at that checkpoint.
   */
  lemma {:induction false} LastGroup(b: Budget, test: nat -> bool, before: seq<Request>, done: nat)
    requires Runnable(b) && done < b.nConfidence
    requires before + CallsFrom(b, test, done) == CallsFrom(b, test, 0)
    requires test(Min(done + b.earlyStopBase, b.nConfidence))
    ensures StopPoint(b, test, done) == Min(done + b.earlyStopBase, b.nConfidence)
    ensures before + GroupCalls(b, done, done, Min(done + b.earlyStopBase, b.nConfidence)) == CallsFrom(b, test, 0)
  {
    var stop1 := Min(done + b.earlyStopBase, b.nConfidence);
    assert CallsFrom(b, test, done) == GroupCalls(b, done, done, stop1) + [];
  }

  /**
   * After the calls `before` and a group from `done` whose checkpoint fails,
   * the calls from that checkpoint remain, and the sampler stops where it
   * would have stopped from `done`.
   */
  lemma {:induction false} NextGroup(b: Budget, test: nat -> bool, before: seq<Request>, done: nat)
    requires Runnable(b) && done < b.nConfidence
    requires before + CallsFrom(b, test, done) == CallsFrom(b, test, 0)
    requires !test(Min(done + b.earlyStopBase, b.nConfidence))
    ensures StopPoint(b, test, done) == StopPoint(b, test, Min(done + b.earlyStopBase, b.nConfidence))
    ensures before + GroupCalls(b, done, done, Min(done + b.earlyStopBase, b.nConfidence))
            + CallsFrom(b, test, Min(done + b.earlyStopBase, b.nConfidence)) == CallsFrom(b, test, 0)
  {
    var stop1 := Min(done + b.earlyStopBase, b.nConfidence);
    var g := GroupCalls(b, done, done, stop1);
    assert CallsFrom(b, test, done) == g + CallsFrom(b, test, stop1);
    assert before + g + CallsFrom(b, test, stop1) == before + (g + CallsFrom(b, test, stop1));
  }

  /** Completions asked for over all calls. */
  function Requested(calls: seq<Request>): int {
    if calls == [] then 0
    else Requested(calls[..|calls| - 1]) + (calls[|calls| - 1].stop - calls[|calls| - 1].start)
  }

  /**
   * Batched calls partition the positions they cover: each asks for between
   * one completion and a batch, none crosses a checkpoint, and together they
   * ask for exactly the number of positions covered.
   */
  lemma {:induction false} BatchesPartitionDrawn(b: Budget, calls: seq<Request>, from: nat, to: nat)
    requires Runnable(b) && Batched(b, calls, from, to)
    ensures Requested(calls) == to - from
    ensures forall i :: 0 <= i < |calls| ==>
      0 < calls[i].stop - calls[i].start <= b.batchSize &&
      calls[i].stop <= Min(calls[i].group + b.earlyStopBase, b.nConfidence)
  {
    if calls != [] {
      var prefix := calls[..|calls| - 1];
      var d := if prefix == [] then from else prefix[|prefix| - 1].stop;
      assert Batched(b, prefix, from, d);
      BatchesPartitionDrawn(b, prefix, from, d);
    }
  }

  /**
   * With a zero budget the batch size is never used: only a zero early-stop
   * base makes the sampler fail, and otherwise it draws nothing and makes no
   * call.
   */
  lemma {:induction false} ZeroBudgetDrawsNothing(b: Budget, test: nat -> bool)
    requires b.nConfidence == 0
    ensures Runnable(b) <==> b.earlyStopBase > 0
    ensures Runnable(b) ==> StopPoint(b, test, 0) == 0 && CallsFrom(b, test, 0) == []
  {
  }

  /** The sampler never asks for more completions than its budget: its calls ask for exactly those drawn. */
  lemma {:induction false} RequestedWithinBudget(b: Budget, test: nat -> bool)
    requires Runnable(b)
    ensures Requested(CallsFrom(b, test, 0)) == StopPoint(b, test, 0) <= b.nConfidence
  {
    CallsFromBatched(b, test, 0);
    BatchesPartitionDrawn(b, CallsFrom(b, test, 0), 0, StopPoint(b, test, 0));
  }

  /**
   * The sampling loop of a step. It requests completions group by group and
   * batch by batch, tallies each stripped completion under its extracted
   * answer, stops after a group whose tally passes the early-stop test, and
   * votes. It returns the vote, the number of completions drawn and, as a
   * record, the generate calls it made.
   */
  method Sample<K(==)>(b: Budget, completions: seq<string>, strip: string -> string, key: string -> K)
    returns (v: Verdict, drawn: nat, ghost calls: seq<Request>)
    requires Runnable(b) && b.nConfidence <= |completions|
    ensures drawn == StopPoint(b, CheckpointTest(b, Stripped(completions, strip), key), 0)
    ensures v == Decide(Build(Stripped(completions, strip)[..drawn], key))
    ensures v == Outcome(b, completions, strip, key)
    ensures calls == CallsFrom(b, CheckpointTest(b, Stripped(completions, strip), key), 0)
  {
    ghost var rs := Stripped(completions, strip);
    ghost var test := CheckpointTest(b, rs, key);
    var n := b.nConfidence;
    var tally: Tally<K> := [];
    calls := [];
    drawn := 0;
    var start1 := 0;
    assert calls + CallsFrom(b, test, drawn) == CallsFrom(b, test, 0);
    while start1 < n
      invariant drawn == Min(start1, n)
      invariant tally == Build(rs[..drawn], key)
      invariant StopPoint(b, test, drawn) == StopPoint(b, test, 0)
      invariant calls + CallsFrom(b, test, drawn) == CallsFrom(b, test, 0)
      decreases n - start1
    {
      var stop1;
      ghost var before := calls;
      stop1, tally, calls := DrawGroup(b, completions, strip, key, start1, tally, calls);
      drawn := stop1;
      if ShouldStop(tally, stop1, b.threshold) {
        assert test(stop1);
        LastGroup(b, test, before, start1);
        break;
      }
      assert !test(stop1);
      NextGroup(b, test, before, start1);
      start1 := start1 + b.earlyStopBase;
    }
    v := Decide(tally);
  }

  /**
   * One early-stop group: the completions from `start1` up to the next
   * checkpoint `stop1` are requested a batch at a time and recorded.
   */
  method DrawGroup<K(==)>(b: Budget, completions: seq<string>, strip: string -> string, key: string -> K,
                          start1: nat, tally: Tally<K>, ghost calls: seq<Request>)
    returns (stop1: nat, tally': Tally<K>, ghost calls': seq<Request>)
    requires Runnable(b) && b.nConfidence <= |completions|
    requires start1 < b.nConfidence
    requires tally == Build(Stripped(completions, strip)[..start1], key)
    ensures stop1 == Min(start1 + b.earlyStopBase, b.nConfidence)
    ensures tally' == Build(Stripped(completions, strip)[..stop1], key)
    ensures calls' == calls + GroupCalls(b, start1, start1, stop1)
  {
    ghost var rs := Stripped(completions, strip);
    stop1 := Min(start1 + b.earlyStopBase, b.nConfidence);
    tally', calls' := tally, calls;
    var start := start1;
    ghost var seen := rs[..start1];
    while start < stop1
      invariant start1 <= start
      invariant seen == rs[..Min(start, stop1)] && tally' == Build(seen, key)
      invariant calls' + GroupCalls(b, start1, start, stop1) == calls + GroupCalls(b, start1, start1, stop1)
      decreases stop1 - start
    {
      var stop := Min(start + b.batchSize, stop1);
      var outputs := completions[start..stop];
      CallThenRest(b, start1, start, stop1, calls', calls + GroupCalls(b, start1, start1, stop1));
      calls' := calls' + [Request(start1, start, stop)];
      tally' := RecordBatch(tally', seen, outputs, strip, key);
      StrippedSlices(completions, strip, start, stop);
      seen := seen + Stripped(outputs, strip);
      start := start + b.batchSize;
    }
    assert calls' + [] == calls';
  }

  /** One call of a group made, the calls from the next batch on remain. */
  lemma {:induction false} CallThenRest(b: Budget, group: nat, start: nat, stop1: nat,
                                        before: seq<Request>, whole: seq<Request>)
    requires Runnable(b) && start < stop1 <= b.nConfidence
    requires before + GroupCalls(b, group, start, stop1) == whole
    ensures before + [Request(group, start, Min(start + b.batchSize, stop1))]
            + GroupCalls(b, group, start + b.batchSize, stop1) == whole
  {
    var r := Request(group, start, Min(start + b.batchSize, stop1));
    var rest := GroupCalls(b, group, start + b.batchSize, stop1);
    assert GroupCalls(b, group, start, stop1) == [r] + rest;
    assert before + [r] + rest == before + ([r] + rest);
  }

  /**
   * Records the outputs of one generate call: each is stripped and appended
   * to the bucket of the answer extracted from it, so the tally becomes that
   * of everything seen so far followed by these outputs.
   */
  method RecordBatch<K(==)>(tally: Tally<K>, ghost seen: seq<string>, outputs: seq<string>,
                            strip: string -> string, key: string -> K) returns (r: Tally<K>)
    requires tally == Build(seen, key)
    ensures r == Build(seen + Stripped(outputs, strip), key)
  {
    r := tally;
    assert seen + Stripped(outputs[..0], strip) == seen;
    for k := 0 to |outputs|
      invariant r == Build(seen + Stripped(outputs[..k], strip), key)
    {
      var result := strip(outputs[k]);
      RecordOne(seen, outputs, k, strip, key);
      r := Add(r, key(result), result);
    }
    assert outputs[..|outputs|] == outputs;
  }

  /** Recording output `k` of a call is one `Add` on the tally of what came before it. */
  lemma {:induction false} RecordOne<K>(seen: seq<string>, outputs: seq<string>, k: nat,
                                        strip: string -> string, key: string -> K)
    requires k < |outputs|
    ensures Build(seen + Stripped(outputs[..k + 1], strip), key) ==
            Add(Build(seen + Stripped(outputs[..k], strip), key), key(strip(outputs[k])), strip(outputs[k]))
  {
    StrippedSnoc(outputs, k, strip);
    BuildSnoc(seen + Stripped(outputs[..k], strip), strip(outputs[k]), key);
    assert seen + Stripped(outputs[..k + 1], strip) == seen + Stripped(outputs[..k], strip) + [strip(outputs[k])];
  }

  lemma {:induction false} StrippedSnoc(outputs: seq<string>, k: nat, strip: string -> string)
    requires k < |outputs|
    ensures Stripped(outputs[..k + 1], strip) == Stripped(outputs[..k], strip) + [strip(outputs[k])]
  {
    assert Stripped(outputs[..k + 1], strip)[..k] == Stripped(outputs[..k], strip);
  }

  /** The stripped stream up to `start`, then the stripped call for `[start, stop)`, is the stripped stream up to `stop`. */
  lemma {:induction false} StrippedSlices(completions: seq<string>, strip: string -> string, start: nat, stop: nat)
    requires start <= stop <= |completions|
    ensures Stripped(completions, strip)[..start] + Stripped(completions[start..stop], strip) ==
            Stripped(completions, strip)[..stop]
  {
  }
}
