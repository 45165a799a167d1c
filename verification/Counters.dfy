/** One `ShardedU64` metric without its cache: shard, then labels, then a 64-bit counter.

This is the map that the per-thread cache of module `ShardedCache` must not be
distinguishable from, and the place where the arithmetic of the counters is settled. */
module Counters {
  import opened Common
  import opened Labels

  const WORD: nat := 0x1_0000_0000_0000_0000

  /** A shard key is a thread id, which enables the cache, or some other key, which does not. */
  datatype Shard = ThreadShard(tid: ThreadId) | PlainShard(id: nat)

  type Counts = map<Shard, map<LabelSet, nat>>

  predicate Has<V>(data: map<Shard, map<LabelSet, V>>, shard: Shard, key: LabelSet) {
    shard in data && key in data[shard]
  }

  function Inner<V>(data: map<Shard, map<LabelSet, V>>, shard: Shard): map<LabelSet, V> {
    if shard in data then data[shard] else map[]
  }

  /** Stores a value, creating the shard's own map when it is missing. */
  function Put<V>(data: map<Shard, map<LabelSet, V>>, shard: Shard, key: LabelSet, value: V)
    : map<Shard, map<LabelSet, V>>
  {
    data[shard := Inner(data, shard)[key := value]]
  }

  function Get(data: Counts, shard: Shard, key: LabelSet): Option<nat> {
    if Has(data, shard, key) then Some(data[shard][key]) else None
  }

  function SaturatingSub(current: nat, value: nat): nat {
    if value <= current then current - value else 0
  }

  /** `fetch_add` wraps around. */
  function WrappingAdd(current: nat, value: nat): nat {
    (current + value) % WORD
  }

  function Add(data: Counts, value: nat, shard: Shard, key: LabelSet): Counts {
    Put(data, shard, key, WrappingAdd(Get(data, shard, key).GetOr(0), value))
  }

  function Sub(data: Counts, value: nat, shard: Shard, key: LabelSet): Counts {
    match Get(data, shard, key)
    case Some(current) => Put(data, shard, key, SaturatingSub(current, value))
    case None => data
  }

  function Remove(data: Counts, shard: Shard, key: LabelSet): Counts {
    if Has(data, shard, key) then data[shard := data[shard] - {key}] else data
  }

  // ---- Reading ----

  /** The sum of one key's counters over some of the shards. */
  ghost function SumOver(data: Counts, shards: set<Shard>, key: LabelSet): nat {
    if shards == {} then 0
    else
      var s :| s in shards;
      (if Has(data, s, key) then data[s][key] else 0) + SumOver(data, shards - {s}, key)
  }

  lemma {:induction false} SumOverSplit(data: Counts, shards: set<Shard>, key: LabelSet, s: Shard)
    requires s in shards
    ensures SumOver(data, shards, key) == Get(data, s, key).GetOr(0) + SumOver(data, shards - {s}, key)
    decreases shards
  {
    var first :| first in shards
      && SumOver(data, shards, key)
         == (if Has(data, first, key) then data[first][key] else 0) + SumOver(data, shards - {first}, key);
    if first != s {
      SumOverSplit(data, shards - {first}, key, s);
      SumOverSplit(data, shards - {s}, key, first);
      assert shards - {first} - {s} == shards - {s} - {first};
    }
  }

  lemma {:induction false} SumOverFrame(a: Counts, b: Counts, shards: set<Shard>, key: LabelSet)
    requires forall s :: s in shards ==> Get(a, s, key).GetOr(0) == Get(b, s, key).GetOr(0)
    ensures SumOver(a, shards, key) == SumOver(b, shards, key)
    decreases shards
  {
    if shards == {} {
    } else {
      var s :| s in shards;
      SumOverSplit(a, shards, key, s);
      SumOverSplit(b, shards, key, s);
      SumOverFrame(a, b, shards - {s}, key);
    }
  }

  ghost function Total(data: Counts, key: LabelSet): nat {
    SumOver(data, data.Keys, key)
  }

  lemma {:induction false} TotalPut(data: Counts, shard: Shard, key: LabelSet, value: nat, asked: LabelSet)
    ensures Total(Put(data, shard, key, value), asked)
         == Total(data, asked) + if asked == key then value - Get(data, shard, key).GetOr(0) else 0
  {
    var after := Put(data, shard, key, value);
    SumOverSplit(after, after.Keys, asked, shard);
    assert after.Keys - {shard} == data.Keys - {shard};
    SumOverFrame(data, after, data.Keys - {shard}, asked);
    if shard in data { SumOverSplit(data, data.Keys, asked, shard); }
    else { assert data.Keys - {shard} == data.Keys; }
  }

  ghost predicate Known(data: Counts, key: LabelSet) {
    exists s :: Has(data, s, key)
  }

  /** `load`: nothing when no shard knows the key. Sums wrap around, as in the release profile. */
  ghost function LoadOf(data: Counts, key: LabelSet): Option<nat> {
    if Known(data, key) then Some(Total(data, key) % WORD) else None
  }

  /** `load_all`: one total for every key some shard knows. */
  ghost function LoadAllOf(data: Counts): map<LabelSet, nat> {
    map k | k in KeysOf(data) :: Total(data, k) % WORD
  }

  lemma {:induction false} WrappedSum(sum: nat, value: nat)
    ensures WrappingAdd(sum % WORD, value) == (sum + value) % WORD
  {
  }

  function KeysOf(data: Counts): set<LabelSet> {
    set s, k | s in data && k in data[s] :: k
  }

  /** `load` as it runs: shards are visited in no particular order. */
  method Load(data: Counts, key: LabelSet) returns (total: Option<nat>)
    ensures total == LoadOf(data, key)
  {
    total := None;
    var rest := data.Keys;
    while rest != {}
      invariant rest <= data.Keys
      invariant total.Some? <==> exists s :: s in data.Keys - rest && Has(data, s, key)
      invariant total.GetOr(0) == SumOver(data, data.Keys - rest, key) % WORD
    {
      var shard :| shard in rest;
      if key in data[shard] {
        WrappedSum(SumOver(data, data.Keys - rest, key), data[shard][key]);
        total := Some(WrappingAdd(total.GetOr(0), data[shard][key]));
      }
      SumOverSplit(data, data.Keys - (rest - {shard}), key, shard);
      assert data.Keys - (rest - {shard}) - {shard} == data.Keys - rest;
      rest := rest - {shard};
    }
    assert data.Keys - rest == data.Keys;
  }

  /** `load_all` as it runs: every shard's counters added into one map. At each key it holds what
      `load` would answer. */
  method LoadAll(data: Counts) returns (totals: map<LabelSet, nat>)
    ensures totals == LoadAllOf(data)
    ensures forall k :: LoadOf(data, k) == if k in totals then Some(totals[k]) else None
  {
    totals := map[];
    var rest := data.Keys;
    while rest != {}
      invariant rest <= data.Keys
      invariant forall k :: k in totals <==> exists s :: s in data.Keys - rest && Has(data, s, k)
      invariant forall k :: k in totals ==> totals[k] == SumOver(data, data.Keys - rest, k) % WORD
    {
      var shard :| shard in rest;
      totals := AddShard(data, data.Keys - rest, shard, totals);
      assert data.Keys - (rest - {shard}) == (data.Keys - rest) + {shard};
      rest := rest - {shard};
    }
    assert data.Keys - rest == data.Keys;
    forall k ensures k in totals <==> k in KeysOf(data) {}
  }

  /** The inner loop of `load_all`: one shard's counters added to the totals so far. */
  method AddShard(data: Counts, ghost done: set<Shard>, shard: Shard, before: map<LabelSet, nat>)
    returns (totals: map<LabelSet, nat>)
    requires done <= data.Keys && shard in data && shard !in done
    requires forall k :: k in before <==> exists s :: s in done && Has(data, s, k)
    requires forall k :: k in before ==> before[k] == SumOver(data, done, k) % WORD
    ensures forall k :: k in totals <==> exists s :: s in done + {shard} && Has(data, s, k)
    ensures forall k :: k in totals ==> totals[k] == SumOver(data, done + {shard}, k) % WORD
  {
    totals := AddCounters(before, data[shard]);
    forall k | k in totals ensures totals[k] == SumOver(data, done + {shard}, k) % WORD {
      SumWithShard(data, done, shard, k);
      if k !in before { NothingToSum(data, done, k); }
      if k in data[shard] { WrappedSum(SumOver(data, done, k), data[shard][k]); }
    }
  }

  lemma {:induction false} SumWithShard(data: Counts, done: set<Shard>, shard: Shard, key: LabelSet)
    requires shard !in done
    ensures SumOver(data, done + {shard}, key) == SumOver(data, done, key) + Get(data, shard, key).GetOr(0)
  {
    SumOverSplit(data, done + {shard}, key, shard);
    assert done + {shard} - {shard} == done;
  }

  /** `*result.entry(key).or_insert(0) += value`, for every entry of a map. */
  method AddCounters(before: map<LabelSet, nat>, more: map<LabelSet, nat>) returns (sums: map<LabelSet, nat>)
    ensures forall k :: k in sums <==> k in before || k in more
    ensures forall k :: k in sums ==> sums[k] == SumAt(before, more, k)
  {
    sums := before;
    var rest := more.Keys;
    while rest != {}
      invariant rest <= more.Keys
      invariant forall k :: k in sums <==> k in before || k in more.Keys - rest
      invariant forall k :: k in sums ==> sums[k] == if k in rest then before[k] else SumAt(before, more, k)
    {
      var key :| key in rest;
      sums := sums[key := WrappingAdd(if key in sums then sums[key] else 0, more[key])];
      rest := rest - {key};
    }
  }

  /** What two maps hold together at a key: a sum where both do or the second does. */
  function SumAt(before: map<LabelSet, nat>, more: map<LabelSet, nat>, key: LabelSet): nat {
    var first := if key in before then before[key] else 0;
    if key in more then WrappingAdd(first, more[key]) else first
  }

  lemma {:induction false} NothingToSum(data: Counts, shards: set<Shard>, key: LabelSet)
    requires forall s :: s in shards ==> !Has(data, s, key)
    ensures SumOver(data, shards, key) == 0
    decreases shards
  {
    if shards == {} {
    } else {
      var s :| s in shards;
      SumOverSplit(data, shards, key, s);
      NothingToSum(data, shards - {s}, key);
    }
  }

  // ---- Histories ----

  datatype Event =
    | AddEvent(value: nat, shard: Shard, key: LabelSet)
    | SubEvent(value: nat, shard: Shard, key: LabelSet)
    | RemoveEvent(shard: Shard, key: LabelSet)
    | ClearEvent

  function Apply(data: Counts, e: Event): Counts {
    match e
    case AddEvent(v, s, k) => Add(data, v, s, k)
    case SubEvent(v, s, k) => Sub(data, v, s, k)
    case RemoveEvent(s, k) => Remove(data, s, k)
    case ClearEvent => map[]
  }

  function Replay(h: seq<Event>): Counts {
    if h == [] then map[] else Apply(Replay(h[..|h| - 1]), h[|h| - 1])
  }

  predicate Concerns(e: Event, shard: Shard, key: LabelSet) {
    !e.ClearEvent? && e.shard == shard && e.key == key
  }

  predicate Resets(e: Event, shard: Shard, key: LabelSet) {
    e.ClearEvent? || (e.RemoveEvent? && Concerns(e, shard, key))
  }

  function Signed(e: Event): int {
    match e
    case AddEvent(v, _, _) => v
    case SubEvent(v, _, _) => 0 - v
    case _ => 0
  }

  /** Counters do not interfere: an event acts on the counter it names, or on all of them. */
  lemma {:induction false} ApplyAt(data: Counts, e: Event, shard: Shard, key: LabelSet)
    ensures Get(Apply(data, e), shard, key)
         == if Resets(e, shard, key) then None
            else if !Concerns(e, shard, key) then Get(data, shard, key)
            else if e.AddEvent? then Some(WrappingAdd(Get(data, shard, key).GetOr(0), e.value))
            else if Has(data, shard, key) then Some(SaturatingSub(data[shard][key], e.value))
            else None
  {
  }

  /** Additions to one counter since it was last removed or cleared. */
  function Added(h: seq<Event>, shard: Shard, key: LabelSet): nat {
    if h == [] || Resets(h[|h| - 1], shard, key) then 0
    else
      var e := h[|h| - 1];
      Added(h[..|h| - 1], shard, key) + if e.AddEvent? && Concerns(e, shard, key) then e.value else 0
  }

  /** Additions minus subtractions on one counter since it was last removed or cleared. */
  function Net(h: seq<Event>, shard: Shard, key: LabelSet): int {
    if h == [] || Resets(h[|h| - 1], shard, key) then 0
    else
      var e := h[|h| - 1];
      Net(h[..|h| - 1], shard, key)
      + if Concerns(e, shard, key) then Signed(e) else 0
  }

  /** The lowest value `Net` has taken since then, counting the zero it starts from. */
  function LowWater(h: seq<Event>, shard: Shard, key: LabelSet): int
    ensures LowWater(h, shard, key) <= 0 && LowWater(h, shard, key) <= Net(h, shard, key)
  {
    if h == [] || Resets(h[|h| - 1], shard, key) then 0
    else
      var before, now := LowWater(h[..|h| - 1], shard, key), Net(h, shard, key);
      if now < before then now else before
  }

  /** One counter after any history: its net total measured from its low-water mark. What a
      saturating subtraction drops is exactly what the net total would have gone below zero. */
  lemma {:induction false} CounterIsReflectedNet(h: seq<Event>, shard: Shard, key: LabelSet)
    requires Added(h, shard, key) < WORD
    ensures Get(Replay(h), shard, key).GetOr(0) == Net(h, shard, key) - LowWater(h, shard, key)
    ensures Get(Replay(h), shard, key).GetOr(0) <= Added(h, shard, key)
  {
    if h == [] || Resets(h[|h| - 1], shard, key) {
    } else {
      var before, e := h[..|h| - 1], h[|h| - 1];
      CounterIsReflectedNet(before, shard, key);
      ApplyAt(Replay(before), e, shard, key);
      if e.AddEvent? && Concerns(e, shard, key) {
        NoWrap(Get(Replay(before), shard, key).GetOr(0), e.value);
      }
    }
  }

  lemma {:induction false} NoWrap(current: nat, value: nat)
    requires current + value < WORD
    ensures WrappingAdd(current, value) == current + value
  {
  }

  predicate NoResets(h: seq<Event>) {
    forall i :: 0 <= i < |h| ==> !h[i].RemoveEvent? && !h[i].ClearEvent?
  }

  /** Additions minus subtractions on one key, over all shards. */
  function NetOverShards(h: seq<Event>, key: LabelSet): int {
    if h == [] then 0
    else
      var e := h[|h| - 1];
      NetOverShards(h[..|h| - 1], key) + if !e.ClearEvent? && e.key == key then Signed(e) else 0
  }

  ghost predicate NeverOverdrawn(h: seq<Event>, key: LabelSet) {
    forall s :: LowWater(h, s, key) == 0
  }

  /** Without `remove` and `clear`, `load` never falls below additions minus subtractions, and it
      equals them exactly when no shard's own running balance ever went below zero. */
  lemma {:induction false} LoadAgainstNet(h: seq<Event>, key: LabelSet)
    requires NoResets(h)
    requires forall s :: Added(h, s, key) < WORD
    ensures Total(Replay(h), key) >= NetOverShards(h, key)
    ensures Total(Replay(h), key) == NetOverShards(h, key) <==> NeverOverdrawn(h, key)
  {
    if h == [] {
    } else {
      var before, e := h[..|h| - 1], h[|h| - 1];
      forall s ensures Added(before, s, key) <= Added(h, s, key) {}
      LoadAgainstNet(before, key);
      OverdrawnStep(h, key);
      if e.key == key {
        CounterIsReflectedNet(before, e.shard, key);
        CounterIsReflectedNet(h, e.shard, key);
      }
      TotalStep(Replay(before), e, key);
    }
  }

  /** One event can overdraw only the counter it names. */
  lemma {:induction false} OverdrawnStep(h: seq<Event>, key: LabelSet)
    requires h != [] && NoResets(h)
    ensures
      var before, e := h[..|h| - 1], h[|h| - 1];
      && LowWater(h, e.shard, key) <= LowWater(before, e.shard, key)
      && (NeverOverdrawn(h, key) <==>
            NeverOverdrawn(before, key)
              && (e.key == key ==> LowWater(h, e.shard, key) == LowWater(before, e.shard, key)))
  {
    var before, e := h[..|h| - 1], h[|h| - 1];
    forall s ensures LowWater(h, s, key) <= LowWater(before, s, key) {}
    forall s | s != e.shard || e.key != key ensures LowWater(h, s, key) == LowWater(before, s, key) {}
  }

  /** All additions to one key, over all shards and without regard to removals. */
  function AddedOverShards(h: seq<Event>, key: LabelSet): nat {
    if h == [] then 0
    else
      var e := h[|h| - 1];
      AddedOverShards(h[..|h| - 1], key) + if e.AddEvent? && e.key == key then e.value else 0
  }

  lemma {:induction false} AddedIsShare(h: seq<Event>, shard: Shard, key: LabelSet)
    ensures Added(h, shard, key) <= AddedOverShards(h, key)
  {
    if h == [] {
    } else {
      AddedIsShare(h[..|h| - 1], shard, key);
    }
  }

  /** As long as all additions to a key together fit a word, `load` does not wrap: it is the sum of
      the counters, and without `remove` and `clear` it compares with the net total as that does. */
  lemma {:induction false} LoadDoesNotWrap(h: seq<Event>, key: LabelSet)
    requires NoResets(h) && AddedOverShards(h, key) < WORD
    ensures LoadOf(Replay(h), key).GetOr(0) == Total(Replay(h), key)
    ensures LoadOf(Replay(h), key).GetOr(0) >= NetOverShards(h, key)
    ensures LoadOf(Replay(h), key).GetOr(0) == NetOverShards(h, key) <==> NeverOverdrawn(h, key)
  {
    forall s ensures Added(h, s, key) < WORD { AddedIsShare(h, s, key); }
    LoadAgainstNet(h, key);
    TotalWithinAdded(h, key);
    if !Known(Replay(h), key) { NothingToSum(Replay(h), Replay(h).Keys, key); }
  }

  lemma {:induction false} TotalWithinAdded(h: seq<Event>, key: LabelSet)
    requires NoResets(h) && AddedOverShards(h, key) < WORD
    ensures Total(Replay(h), key) <= AddedOverShards(h, key)
  {
    if h == [] {
    } else {
      var before, e := h[..|h| - 1], h[|h| - 1];
      TotalWithinAdded(before, key);
      TotalStep(Replay(before), e, key);
      ApplyAt(Replay(before), e, e.shard, key);
      if e.AddEvent? && e.key == key {
        AddedIsShare(before, e.shard, key);
        CounterIsReflectedNet(before, e.shard, key);
        NoWrap(Get(Replay(before), e.shard, key).GetOr(0), e.value);
      }
    }
  }

  lemma {:induction false} TotalStep(data: Counts, e: Event, key: LabelSet)
    requires e.AddEvent? || e.SubEvent?
    ensures Total(Apply(data, e), key)
         == Total(data, key)
            + if e.key == key then Get(Apply(data, e), e.shard, key).GetOr(0) - Get(data, e.shard, key).GetOr(0) else 0
  {
    ApplyAt(data, e, e.shard, e.key);
    if Has(data, e.shard, e.key) || e.AddEvent? {
      TotalPut(data, e.shard, e.key, Get(Apply(data, e), e.shard, e.key).value, key);
    }
  }
}
