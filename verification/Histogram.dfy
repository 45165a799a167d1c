/** `ShardedHistogram`: an observation is counted in one bucket, and the cumulative buckets that
Prometheus expects are rebuilt when they are read. */
module Histogram {
  import opened Common
  import opened Labels
  import opened Counters

  datatype Observation = Observation(value: nat, shard: Shard, key: LabelSet)

  predicate Sorted(bounds: seq<nat>) {
    forall i, j :: 0 <= i < j < |bounds| ==> bounds[i] <= bounds[j]
  }

  function InsertBound(bound: nat, sorted: seq<nat>): seq<nat> {
    if sorted == [] || bound <= sorted[0] then [bound] + sorted else [sorted[0]] + InsertBound(bound, sorted[1..])
  }

  lemma {:induction false} InsertKeepsSorted(bound: nat, sorted: seq<nat>)
    requires Sorted(sorted)
    ensures
      var r := InsertBound(bound, sorted);
      && Sorted(r) && multiset(r) == multiset(sorted) + multiset{bound}
      && |r| == |sorted| + 1 && (r[0] == bound || (sorted != [] && r[0] == sorted[0]))
  {
    if sorted == [] || bound <= sorted[0] {
      SortedCons(bound, sorted);
    } else {
      var rest := InsertBound(bound, sorted[1..]);
      InsertKeepsSorted(bound, sorted[1..]);
      SortedCons(sorted[0], rest);
      assert sorted == [sorted[0]] + sorted[1..];
    }
  }

  lemma {:induction false} SortedCons(first: nat, rest: seq<nat>)
    requires Sorted(rest) && (rest == [] || first <= rest[0])
    ensures Sorted([first] + rest) && multiset([first] + rest) == multiset(rest) + multiset{first}
  {
    var all := [first] + rest;
    forall i, j | 0 <= i < j < |all| ensures all[i] <= all[j] {
      assert all[j] == rest[j - 1] && rest[0] <= rest[j - 1];
      if i > 0 { assert all[i] == rest[i - 1]; }
    }
  }

  /** `sort_unstable`. */
  function Sort(bounds: seq<nat>): (r: seq<nat>)
    ensures Sorted(r) && multiset(r) == multiset(bounds) && |r| == |bounds|
  {
    if bounds == [] then []
    else
      assert bounds == [bounds[0]] + bounds[1..];
      InsertKeepsSorted(bounds[0], Sort(bounds[1..]));
      InsertBound(bounds[0], Sort(bounds[1..]))
  }

  /** `partition_point(|bound| bound < value)`, by bisection. */
  method PartitionPoint(bounds: seq<nat>, value: nat) returns (index: nat)
    requires Sorted(bounds)
    ensures index <= |bounds|
    ensures forall i :: 0 <= i < |bounds| ==> (bounds[i] < value <==> i < index)
  {
    var low, high := 0, |bounds|;
    while low < high
      invariant 0 <= low <= high <= |bounds|
      invariant forall i :: 0 <= i < low ==> bounds[i] < value
      invariant forall i :: high <= i < |bounds| ==> value <= bounds[i]
    {
      var middle := low + (high - low) / 2;
      if bounds[middle] < value { low := middle + 1; } else { high := middle; }
    }
    index := low;
  }

  // ---- What was observed ----

  /** The observations of one label set that satisfy a test. */
  ghost function Count(history: seq<Observation>, key: LabelSet, test: nat -> bool): nat {
    if history == [] then 0
    else
      var last := history[|history| - 1];
      Count(history[..|history| - 1], key, test) + if last.key == key && test(last.value) then 1 else 0
  }

  ghost function SumOf(history: seq<Observation>, key: LabelSet): nat {
    if history == [] then 0
    else
      var last := history[|history| - 1];
      SumOf(history[..|history| - 1], key) + if last.key == key then last.value else 0
  }

  ghost function AtMost(bound: nat): nat -> bool {
    (value: nat) => value <= bound
  }

  ghost function Always(): nat -> bool {
    (value: nat) => true
  }

  /** Whether a value belongs to bucket `i`: above the bound before it and not above its own. */
  ghost function InBucket(bounds: seq<nat>, i: nat): nat -> bool {
    (value: nat) => i < |bounds| && value <= bounds[i] && (i > 0 ==> bounds[i - 1] < value)
  }

  /** What a counter that adds `amount` for each observation its test accepts has been told. */
  ghost function EventsFor(history: seq<Observation>, test: nat -> bool, amount: nat -> nat): seq<Event> {
    if history == [] then []
    else
      var last := history[|history| - 1];
      EventsFor(history[..|history| - 1], test, amount)
      + if test(last.value) then [AddEvent(amount(last.value), last.shard, last.key)] else []
  }

  ghost function One(): nat -> nat { (value: nat) => 1 }

  ghost function Itself(): nat -> nat { (value: nat) => value }

  /** The observations in the first `n` buckets. */
  ghost function Below(history: seq<Observation>, key: LabelSet, bounds: seq<nat>, n: nat): nat
    requires n <= |bounds|
  {
    if n == 0 then 0 else Count(history, key, AtMost(bounds[n - 1]))
  }

  lemma {:induction false} NetAppend(events: seq<Event>, e: Event, key: LabelSet)
    requires e.AddEvent?
    ensures NetOverShards(events + [e], key) == NetOverShards(events, key) + if e.key == key then e.value else 0
  {
    assert (events + [e])[..|events|] == events;
  }

  ghost predicate Mentions(events: seq<Event>, key: LabelSet) {
    exists i :: 0 <= i < |events| && events[i].AddEvent? && events[i].key == key
  }

  lemma {:induction false} MentionsAppend(events: seq<Event>, e: Event, key: LabelSet)
    requires e.AddEvent?
    ensures Mentions(events + [e], key) <==> Mentions(events, key) || e.key == key
  {
    var more := events + [e];
    assert more[|events|] == e && forall i :: 0 <= i < |events| ==> more[i] == events[i];
  }

  lemma {:induction false} ReplayAppend(events: seq<Event>, e: Event)
    ensures Replay(events + [e]) == Apply(Replay(events), e)
  {
    assert (events + [e])[..|events|] == events;
  }

  predicate OnlyAdds(events: seq<Event>) {
    forall i :: 0 <= i < |events| ==> events[i].AddEvent?
  }

  lemma {:induction false} EventsAreAdds(history: seq<Observation>, test: nat -> bool, amount: nat -> nat)
    ensures OnlyAdds(EventsFor(history, test, amount))
  {
    if history == [] {
    } else {
      EventsAreAdds(history[..|history| - 1], test, amount);
    }
  }

  /** With additions only, a shard's share is part of the whole and nothing is ever overdrawn. */
  lemma {:induction false} AddsNeverOverdraw(events: seq<Event>, key: LabelSet, s: Shard)
    requires OnlyAdds(events)
    ensures Added(events, s, key) == Net(events, s, key) <= NetOverShards(events, key)
    ensures LowWater(events, s, key) == 0
    ensures NetOverShards(events, key) >= 0
  {
    if events == [] {
    } else {
      AddsNeverOverdraw(events[..|events| - 1], key, s);
    }
  }

  lemma {:induction false} AddsAreKnown(events: seq<Event>, key: LabelSet)
    requires OnlyAdds(events)
    ensures Known(Replay(events), key) <==> Mentions(events, key)
  {
    if events == [] {
    } else {
      var before, e := events[..|events| - 1], events[|events| - 1];
      AddsAreKnown(before, key);
      forall s ensures Has(Replay(events), s, key) <==> Has(Replay(before), s, key) || (e.shard == s && e.key == key) {
        ApplyAt(Replay(before), e, s, key);
      }
      assert before + [e] == events;
      MentionsAppend(before, e, key);
      if Known(Replay(before), key) {
        var s :| Has(Replay(before), s, key);
        assert Has(Replay(events), s, key);
      }
      if e.key == key { assert Has(Replay(events), e.shard, key); }
    }
  }

  /** One more observation is one more addition, or none. */
  lemma {:induction false} Recorded(history: seq<Observation>, seen: Observation, test: nat -> bool, amount: nat -> nat)
    ensures
      var before := Replay(EventsFor(history, test, amount));
      Replay(EventsFor(history + [seen], test, amount))
      == if test(seen.value) then Add(before, amount(seen.value), seen.shard, seen.key) else before
  {
    assert (history + [seen])[..|history|] == history;
    var events := EventsFor(history, test, amount);
    assert events + [] == events;
    ReplayAppend(events, AddEvent(amount(seen.value), seen.shard, seen.key));
  }

  /** Reading back a counter that was only added to. */
  lemma {:induction false} ReadBack(events: seq<Event>, key: LabelSet)
    requires OnlyAdds(events) && 0 <= NetOverShards(events, key) < WORD
    ensures LoadOf(Replay(events), key)
         == if Mentions(events, key) then Some(NetOverShards(events, key)) else None
  {
    AddsAreKnown(events, key);
    forall s ensures Added(events, s, key) < WORD && LowWater(events, s, key) == 0 {
      AddsNeverOverdraw(events, key, s);
    }
    LoadAgainstNet(events, key);
  }

  lemma {:induction false} CountedAreMentioned(history: seq<Observation>, key: LabelSet, test: nat -> bool,
                                               amount: nat -> nat)
    ensures Mentions(EventsFor(history, test, amount), key) <==> Count(history, key, test) > 0
    ensures Count(history, key, test) <= |history|
  {
    if history == [] {
    } else {
      var before, last := history[..|history| - 1], history[|history| - 1];
      CountedAreMentioned(before, key, test, amount);
      var events, e := EventsFor(before, test, amount), AddEvent(amount(last.value), last.shard, last.key);
      MentionsAppend(events, e, key);
      assert EventsFor(history, test, amount) == if test(last.value) then events + [e] else events;
    }
  }

  lemma {:induction false} NetOfEvents(history: seq<Observation>, key: LabelSet, test: nat -> bool)
    ensures NetOverShards(EventsFor(history, test, One()), key) == Count(history, key, test)
  {
    if history == [] {
    } else {
      var before, last := history[..|history| - 1], history[|history| - 1];
      NetOfEvents(before, key, test);
      var events, e := EventsFor(before, test, One()), AddEvent(1, last.shard, last.key);
      NetAppend(events, e, key);
      assert EventsFor(history, test, One()) == if test(last.value) then events + [e] else events;
    }
  }

  lemma {:induction false} SumOfEvents(history: seq<Observation>, key: LabelSet)
    ensures NetOverShards(EventsFor(history, Always(), Itself()), key) == SumOf(history, key)
  {
    if history == [] {
    } else {
      var before, last := history[..|history| - 1], history[|history| - 1];
      SumOfEvents(before, key);
      NetAppend(EventsFor(before, Always(), Itself()), AddEvent(last.value, last.shard, last.key), key);
    }
  }

  /** The value of a bucket counter, and whether its label set shows at all. */
  lemma {:induction false} BucketReads(history: seq<Observation>, key: LabelSet, test: nat -> bool)
    requires |history| < WORD
    ensures LoadOf(Replay(EventsFor(history, test, One())), key)
         == if Count(history, key, test) > 0 then Some(Count(history, key, test)) else None
  {
    EventsAreAdds(history, test, One());
    NetOfEvents(history, key, test);
    CountedAreMentioned(history, key, test, One());
    ReadBack(EventsFor(history, test, One()), key);
  }

  /** Differential buckets add up to cumulative ones. */
  lemma {:induction false} BucketsAccumulate(history: seq<Observation>, key: LabelSet, bounds: seq<nat>, i: nat)
    requires Sorted(bounds) && i < |bounds|
    ensures Count(history, key, AtMost(bounds[i]))
         == Count(history, key, InBucket(bounds, i)) + if i == 0 then 0 else Count(history, key, AtMost(bounds[i - 1]))
  {
    if history == [] {
    } else {
      BucketsAccumulate(history[..|history| - 1], key, bounds, i);
    }
  }

  /** A counter map shows `n`, zero being shown by absence. */
  ghost predicate Holds(counts: map<LabelSet, nat>, key: LabelSet, n: nat) {
    if n > 0 then key in counts && counts[key] == n else key !in counts
  }

  lemma {:induction false} MergedBucket(history: seq<Observation>, key: LabelSet, bounds: seq<nat>, i: nat,
                                        running: map<LabelSet, nat>, snapshot: map<LabelSet, nat>,
                                        merged: map<LabelSet, nat>)
    requires |history| < WORD && Sorted(bounds) && i < |bounds|
    requires Holds(running, key, Below(history, key, bounds, i))
    requires
      var bucket := Replay(EventsFor(history, InBucket(bounds, i), One()));
      LoadOf(bucket, key) == if key in snapshot then Some(snapshot[key]) else None
    requires key in merged <==> key in running || key in snapshot
    requires key in merged ==> merged[key] == SumAt(running, snapshot, key)
    ensures Holds(merged, key, Below(history, key, bounds, i + 1))
  {
    BucketReads(history, key, InBucket(bounds, i));
    BucketsAccumulate(history, key, bounds, i);
    CountedAreMentioned(history, key, AtMost(bounds[i]), One());
    NoWrap(Below(history, key, bounds, i), Count(history, key, InBucket(bounds, i)));
  }

  /** Cumulative buckets never decrease and never exceed the number of observations. */
  lemma {:induction false} CumulativeIsMonotone(history: seq<Observation>, key: LabelSet, low: nat, high: nat)
    requires low <= high
    ensures Count(history, key, AtMost(low)) <= Count(history, key, AtMost(high)) <= Count(history, key, Always())
  {
    if history == [] {
    } else {
      CumulativeIsMonotone(history[..|history| - 1], key, low, high);
    }
  }

  // ---- The histogram ----

  /** Every bucket's counter holds the observations that fell between its bounds. */
  ghost predicate Filled(history: seq<Observation>, bounds: seq<nat>, counts: seq<Counts>) {
    && |counts| == |bounds|
    && forall i :: 0 <= i < |counts| ==> counts[i] == Replay(EventsFor(history, InBucket(bounds, i), One()))
  }

  ghost predicate Summed(history: seq<Observation>, sum: Counts, count: Counts) {
    && sum == Replay(EventsFor(history, Always(), Itself()))
    && count == Replay(EventsFor(history, Always(), One()))
  }

  lemma {:induction false} SumsRecorded(history: seq<Observation>, seen: Observation, sum: Counts, count: Counts)
    requires Summed(history, sum, count)
    ensures Summed(history + [seen], Add(sum, seen.value, seen.shard, seen.key), Add(count, 1, seen.shard, seen.key))
  {
    Recorded(history, seen, Always(), Itself());
    Recorded(history, seen, Always(), One());
  }

  /** The counters hold what the observations call for. */
  ghost predicate Consistent(history: seq<Observation>, bounds: seq<nat>, counts: seq<Counts>, sum: Counts,
                             count: Counts) {
    Sorted(bounds) && Filled(history, bounds, counts) && Summed(history, sum, count)
  }

  lemma {:induction false} RecordKeeps(history: seq<Observation>, bounds: seq<nat>, counts: seq<Counts>, sum: Counts,
                                       count: Counts, seen: Observation, index: nat)
    requires Consistent(history, bounds, counts, sum, count) && index <= |bounds|
    requires forall i :: 0 <= i < |bounds| ==> (bounds[i] < seen.value <==> i < index)
    ensures Consistent(history + [seen], bounds, Bumped(counts, index, seen.shard, seen.key),
                       Add(sum, seen.value, seen.shard, seen.key), Add(count, 1, seen.shard, seen.key))
  {
    SumsRecorded(history, seen, sum, count);
    BucketsRecorded(history, seen, bounds, counts, index);
  }

  /** Values above the last bound fall in no bucket. */
  function Bumped(counts: seq<Counts>, index: nat, shard: Shard, key: LabelSet): seq<Counts> {
    if index < |counts| then counts[index := Add(counts[index], 1, shard, key)] else counts
  }

  /** An observation changes the counter at its partition point and no other. */
  lemma {:induction false} BucketsRecorded(history: seq<Observation>, seen: Observation, bounds: seq<nat>,
                                           counts: seq<Counts>, index: nat)
    requires Filled(history, bounds, counts) && index <= |bounds|
    requires forall i :: 0 <= i < |bounds| ==> (bounds[i] < seen.value <==> i < index)
    ensures Filled(history + [seen], bounds, Bumped(counts, index, seen.shard, seen.key))
  {
    forall i: nat | i < |bounds|
      ensures Replay(EventsFor(history + [seen], InBucket(bounds, i), One()))
           == if i == index then Add(counts[i], 1, seen.shard, seen.key) else counts[i]
    {
      Recorded(history, seen, InBucket(bounds, i), One());
      BucketOf(bounds, seen.value, index, i);
    }
  }

  lemma {:induction false} BucketOf(bounds: seq<nat>, value: nat, index: nat, i: nat)
    requires i < |bounds| && forall k :: 0 <= k < |bounds| ==> (bounds[k] < value <==> k < index)
    ensures InBucket(bounds, i)(value) <==> i == index
  {
    if i > 0 { assert bounds[i - 1] < value <==> i - 1 < index; }
  }

  class ShardedHistogram {
    var buckets: seq<nat>
    var counts: seq<Counts>
    var sum: Counts
    var count: Counts

    ghost var history: seq<Observation>

    ghost predicate Valid()
      reads this
    {
      Consistent(history, buckets, counts, sum, count)
    }

    constructor (bounds: seq<nat>)
      ensures Valid() && history == []
      ensures Sorted(buckets) && multiset(buckets) == multiset(bounds)
    {
      buckets := Sort(bounds);
      counts := seq(|bounds|, _ => map[]);
      sum, count := map[], map[];
      history := [];
    }

    method Record(value: nat, shard: Shard, key: LabelSet)
      requires Valid()
      modifies this
      ensures Valid() && buckets == old(buckets)
      ensures history == old(history) + [Observation(value, shard, key)]
    {
      ghost var seen := Observation(value, shard, key);
      var index := PartitionPoint(buckets, value);
      RecordKeeps(history, buckets, counts, sum, count, seen, index);
      sum, count := Add(sum, value, shard, key), Add(count, 1, shard, key);
      counts := Bumped(counts, index, shard, key);
      history := history + [seen];
    }

    method Clear()
      requires Valid()
      modifies this
      ensures Valid() && buckets == old(buckets) && history == []
    {
      counts := seq(|counts|, _ => map[]);
      sum, count := map[], map[];
      history := [];
    }

    /** Every cumulative bucket holds, for every label set, the number of recorded values not above
        its bound, and shows a label set only when there are any. */
    method LoadCumulativeCounts() returns (cumulative: seq<map<LabelSet, nat>>)
      requires Valid()
      ensures |cumulative| == |buckets|
      ensures |history| < WORD ==>
        forall i, k :: 0 <= i < |buckets| ==> Holds(cumulative[i], k, Count(history, k, AtMost(buckets[i])))
    {
      cumulative := [];
      var running: map<LabelSet, nat> := map[];
      for b := 0 to |counts|
        invariant |cumulative| == b
        invariant |history| < WORD ==> Shows(running, history, buckets, b)
        invariant |history| < WORD ==> forall i :: 0 <= i < b ==> Shows(cumulative[i], history, buckets, i + 1)
      {
        running := AccumulateBucket(running, counts[b], history, buckets, b);
        cumulative := cumulative + [running];
      }
      if |history| < WORD {
        forall i, k | 0 <= i < |buckets| ensures Holds(cumulative[i], k, Count(history, k, AtMost(buckets[i]))) {
          assert Shows(cumulative[i], history, buckets, i + 1);
          assert Below(history, k, buckets, i + 1) == Count(history, k, AtMost(buckets[i]));
        }
      }
    }
  }

  /** The running map shows every label set's observations in the first `n` buckets. */
  ghost predicate Shows(running: map<LabelSet, nat>, history: seq<Observation>, bounds: seq<nat>, n: nat)
    requires n <= |bounds|
  {
    forall k :: Holds(running, k, Below(history, k, bounds, n))
  }

  /** One round of the reading loop. */
  method AccumulateBucket(running: map<LabelSet, nat>, bucket: Counts, ghost history: seq<Observation>,
                          ghost bounds: seq<nat>, ghost i: nat)
    returns (merged: map<LabelSet, nat>)
    requires Sorted(bounds) && i < |bounds|
    requires bucket == Replay(EventsFor(history, InBucket(bounds, i), One()))
    requires |history| < WORD ==> Shows(running, history, bounds, i)
    ensures |history| < WORD ==> Shows(merged, history, bounds, i + 1)
  {
    var snapshot := LoadAll(bucket);
    merged := AddCounters(running, snapshot);
    if |history| < WORD {
      ghost var next := i + 1;
      forall k ensures Holds(merged, k, Below(history, k, bounds, next)) {
        assert Holds(running, k, Below(history, k, bounds, i));
        MergedBucket(history, k, bounds, i, running, snapshot, merged);
      }
    }
  }

  /** `sum` and `count` read back the total and the number of the observations. */
  lemma {:induction false} SumAndCountRead(history: seq<Observation>, key: LabelSet)
    ensures |history| < WORD ==>
      var count := Count(history, key, Always());
      LoadOf(Replay(EventsFor(history, Always(), One())), key) == if count > 0 then Some(count) else None
    ensures SumOf(history, key) < WORD ==>
      LoadOf(Replay(EventsFor(history, Always(), Itself())), key)
      == if Count(history, key, Always()) > 0 then Some(SumOf(history, key)) else None
  {
    if |history| < WORD { BucketReads(history, key, Always()); }
    if SumOf(history, key) < WORD {
      EventsAreAdds(history, Always(), Itself());
      SumOfEvents(history, key);
      CountedAreMentioned(history, key, Always(), Itself());
      ReadBack(EventsFor(history, Always(), Itself()), key);
    }
  }
}
