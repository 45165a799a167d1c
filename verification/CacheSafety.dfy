/** Whatever the labels, the cache is memory safe: a cached address of the current epoch is live. Label
sets that compare equal without being equal are counted in the wrong cell, never in a dead one. */
module CacheSafety {
  import opened Common
  import opened Labels
  import opened Counters
  import opened ShardedCache
  import opened CacheRefinement

  ghost predicate AllIn(cells: seq<Entry>, addrs: set<Addr>) {
    forall i :: 0 <= i < |cells| ==> cells[i].cell in addrs
  }

  /** A cache of the current epoch holds cells of its metric only. */
  ghost predicate Live(metrics: map<MetricId, Metric>, cache: Cache) {
    forall m :: m in cache ==>
      && cache[m].epoch <= MetricOf(metrics, m).epoch
      && (cache[m].epoch == MetricOf(metrics, m).epoch ==> AllIn(cache[m].cells, AddrsOf(MetricOf(metrics, m).data)))
  }

  ghost predicate AllLive(metrics: map<MetricId, Metric>, tls: map<ThreadId, Cache>) {
    forall t :: Live(metrics, CacheOf(tls, t))
  }

  ghost predicate Safe(st: State, bumps: nat) {
    HeapOk(st.memory, st.metrics) && EpochsOk(st.metrics, bumps) && AllLive(st.metrics, st.tls)
  }

  // ---- The cache ----

  lemma {:induction false} FindIn(cells: seq<Entry>, key: LabelSet, addrs: set<Addr>)
    requires AllIn(cells, addrs)
    ensures Find(cells, key).Some? ==> Find(cells, key).value.cell in addrs
  {
    if cells == [] {
    } else {
      FindIn(cells[1..], key, addrs);
    }
  }

  lemma {:induction false} InsertIn(cells: seq<Entry>, e: Entry, addrs: set<Addr>)
    requires AllIn(cells, addrs) && e.cell in addrs
    ensures AllIn(Insert(cells, e), addrs)
  {
    if cells == [] {
    } else {
      InsertIn(cells[1..], e, addrs);
    }
  }

  lemma {:induction false} CellsAreLive(memory: map<Addr, nat>, metrics: map<MetricId, Metric>, m: MetricId, cell: Addr)
    requires HeapOk(memory, metrics) && cell in AddrsOf(MetricOf(metrics, m).data)
    ensures cell in memory
  {
    var data := MetricOf(metrics, m).data;
    var s, k :| s in data && k in data[s] && data[s][k] == cell;
    assert CellAt(metrics, Slot(m, s, k)) == Some(cell);
  }

  lemma {:induction false} LookupLive(st: State, bumps: nat, t: ThreadId, m: MetricId, shard: Shard, key: LabelSet)
    requires Safe(st, bumps)
    ensures
      var (cache, hit) := CallLookup(st, t, m, shard, key);
      Live(st.metrics, cache) && (hit.Some? ==> hit.value in st.memory)
  {
    var cache, metric := CacheOf(st.tls, t), MetricOf(st.metrics, m);
    assert Live(st.metrics, cache);
    if shard.ThreadShard? && m in cache && cache[m].epoch == metric.epoch {
      FindIn(cache[m].cells, key, AddrsOf(metric.data));
      var hit := CallLookup(st, t, m, shard, key).1;
      if hit.Some? { CellsAreLive(st.memory, st.metrics, m, hit.value); }
    }
  }

  lemma {:induction false} StoreLive(st: State, cache: Cache, m: MetricId, shard: Shard, key: LabelSet, cell: Addr)
    requires Live(st.metrics, cache) && cell in AddrsOf(MetricOf(st.metrics, m).data)
    ensures Live(st.metrics, CallStore(st, cache, m, shard, key, cell))
  {
    if shard.ThreadShard? {
      var metric := MetricOf(st.metrics, m);
      var cells := if m in cache && cache[m].epoch == metric.epoch then cache[m].cells else [];
      InsertIn(cells, Entry(key, shard.tid, cell), AddrsOf(metric.data));
    }
  }

  lemma {:induction false} AddrsAfterGrowth(metrics: map<MetricId, Metric>, slot: Slot, cell: Addr)
    requires CellAt(metrics, slot).None?
    ensures
      var grown := AddrsOf(MetricOf(Grow(metrics, slot, cell), slot.metric).data);
      AddrsOf(MetricOf(metrics, slot.metric).data) <= grown && cell in grown
  {
    var before, after := MetricOf(metrics, slot.metric).data, MetricOf(Grow(metrics, slot, cell), slot.metric).data;
    forall a | a in AddrsOf(before) ensures a in AddrsOf(after) {
      var s, k :| s in before && k in before[s] && before[s][k] == a;
      assert Has(after, s, k) && after[s][k] == a;
    }
    assert Has(after, slot.shard, slot.key) && after[slot.shard][slot.key] == cell;
  }

  lemma {:induction false} LiveAfterGrowth(metrics: map<MetricId, Metric>, slot: Slot, cell: Addr, cache: Cache)
    requires Live(metrics, cache) && CellAt(metrics, slot).None?
    ensures Live(Grow(metrics, slot, cell), cache)
  {
    AddrsAfterGrowth(metrics, slot, cell);
  }

  // ---- Calls ----

  lemma {:induction false} WriteSafe(st: State, bumps: nat, t: ThreadId, cache: Cache, cell: Addr, change: nat -> nat)
    requires Safe(st, bumps) && Live(st.metrics, cache) && cell in st.memory
    ensures Write(st, t, cache, cell, change).Done? && Safe(Write(st, t, cache, cell, change).state, bumps)
  {
    var after := Write(st, t, cache, cell, change).state;
    assert after.memory.Keys == st.memory.Keys;
    LiveAfterReplacing(st.metrics, st.tls, t, cache);
  }

  lemma {:induction false} LiveAfterReplacing(metrics: map<MetricId, Metric>, tls: map<ThreadId, Cache>, t: ThreadId,
                                              cache: Cache)
    requires AllLive(metrics, tls) && Live(metrics, cache)
    ensures AllLive(metrics, tls[t := cache])
  {
    var after := tls[t := cache];
    forall u ensures Live(metrics, CacheOf(after, u)) { assert Live(metrics, CacheOf(tls, u)); }
  }

  lemma {:induction false} InsertSafe(alloc: Allocator, st: State, bumps: nat, slot: Slot, hint: nat, cache: Cache)
    requires FindsFree(alloc) && Safe(st, bumps) && Live(st.metrics, cache)
    ensures
      var (grown, cell) := LookupOrInsert(alloc, st, slot.metric, slot.shard, slot.key, hint);
      && Safe(grown, bumps) && Live(grown.metrics, cache) && cell in grown.memory
      && cell in AddrsOf(MetricOf(grown.metrics, slot.metric).data)
      && MetricOf(grown.metrics, slot.metric).epoch == MetricOf(st.metrics, slot.metric).epoch
  {
    var (grown, cell) := LookupOrInsert(alloc, st, slot.metric, slot.shard, slot.key, hint);
    if CellAt(st.metrics, slot).Some? {
      assert CellAt(st.metrics, slot) == Some(cell);
    } else {
      assert grown == State(st.memory[cell := 0], Grow(st.metrics, slot, cell), st.tls);
      HeapAfterGrowth(st.memory, st.metrics, slot, cell);
      forall m ensures MetricOf(grown.metrics, m).epoch == MetricOf(st.metrics, m).epoch {}
      AddrsAfterGrowth(st.metrics, slot, cell);
      LiveAfterGrowth(st.metrics, slot, cell, cache);
      forall t ensures Live(grown.metrics, CacheOf(st.tls, t)) {
        LiveAfterGrowth(st.metrics, slot, cell, CacheOf(st.tls, t));
      }
    }
  }

  lemma {:induction false} AddSafe(alloc: Allocator, st: State, c: Call, bumps: nat)
    requires FindsFree(alloc) && Safe(st, bumps) && c.AddCall?
    ensures AddStep(alloc, st, c).Done? && Safe(AddStep(alloc, st, c).state, bumps)
  {
    var (cache, hit) := CallLookup(st, c.thread, c.metric, c.shard, c.key);
    LookupLive(st, bumps, c.thread, c.metric, c.shard, c.key);
    if hit.Some? {
      WriteSafe(st, bumps, c.thread, cache, hit.value, Adding(c.value));
    } else {
      var (grown, cell) := LookupOrInsert(alloc, st, c.metric, c.shard, c.key, c.hint);
      InsertSafe(alloc, st, bumps, Slot(c.metric, c.shard, c.key), c.hint, cache);
      StoreLive(grown, cache, c.metric, c.shard, c.key, cell);
      WriteSafe(grown, bumps, c.thread, CallStore(grown, cache, c.metric, c.shard, c.key, cell), cell, Adding(c.value));
    }
  }

  lemma {:induction false} SubSafe(st: State, c: Call, bumps: nat)
    requires Safe(st, bumps) && c.SubCall?
    ensures SubStep(st, c).Done? && Safe(SubStep(st, c).state, bumps)
  {
    var (cache, hit) := CallLookup(st, c.thread, c.metric, c.shard, c.key);
    var data := MetricOf(st.metrics, c.metric).data;
    LookupLive(st, bumps, c.thread, c.metric, c.shard, c.key);
    if hit.Some? {
      WriteSafe(st, bumps, c.thread, cache, hit.value, Subtracting(c.value));
    } else if Has(data, c.shard, c.key) {
      var cell := data[c.shard][c.key];
      assert CellAt(st.metrics, Slot(c.metric, c.shard, c.key)) == Some(cell);
      StoreLive(st, cache, c.metric, c.shard, c.key, cell);
      WriteSafe(st, bumps, c.thread, CallStore(st, cache, c.metric, c.shard, c.key, cell), cell, Subtracting(c.value));
    } else {
      LiveAfterReplacing(st.metrics, st.tls, c.thread, cache);
    }
  }

  lemma {:induction false} ShrinkSafe(st: State, bumps: nat, m: MetricId, data: Cells, freed: set<Addr>)
    requires Safe(st, bumps) && bumps + 1 < WORD && ShrinksTo(st.metrics, m, data, freed)
    ensures Safe(Shrink(st, m, data, freed), bumps + 1)
  {
    var after := Shrink(st, m, data, freed);
    HeapAfterShrink(st, m, data, freed);
    EpochsAfterShrink(st, bumps, m, data, freed);
    forall t ensures Live(after.metrics, CacheOf(after.tls, t)) { assert Live(st.metrics, CacheOf(st.tls, t)); }
  }

  lemma {:induction false} DropSafe(st: State, c: Call, bumps: nat)
    requires Safe(st, bumps) && bumps + 1 < WORD && (c.RemoveCall? || c.ClearCall?)
    ensures
      var outcome := if c.RemoveCall? then RemoveStep(st, c) else ClearStep(st, c);
      outcome.Done? && Safe(outcome.state, bumps + 1)
  {
    var data := MetricOf(st.metrics, c.metric).data;
    if c.ClearCall? {
      ClearedSlots(st.memory, st.metrics, c.metric);
      ShrinkSafe(st, bumps, c.metric, map[], AddrsOf(data));
    } else if Has(data, c.shard, c.key) {
      assert CellAt(st.metrics, Slot(c.metric, c.shard, c.key)) == Some(data[c.shard][c.key]);
      RemovedSlot(st.metrics, Slot(c.metric, c.shard, c.key));
      ShrinkSafe(st, bumps, c.metric, data[c.shard := data[c.shard] - {c.key}], {data[c.shard][c.key]});
    }
  }

  lemma {:induction false} StepSafe(alloc: Allocator, st: State, c: Call, bumps: nat)
    requires FindsFree(alloc) && Safe(st, bumps) && (MayBump(c) ==> bumps + 1 < WORD)
    ensures Step(alloc, st, c).Done? && Safe(Step(alloc, st, c).state, if MayBump(c) then bumps + 1 else bumps)
  {
    match c
    case AddCall(_, _, _, _, _, _) => AddSafe(alloc, st, c, bumps);
    case SubCall(_, _, _, _, _) => SubSafe(st, c, bumps);
    case RemoveCall(_, _, _) => DropSafe(st, c, bumps);
    case ClearCall(_) => DropSafe(st, c, bumps);
    case _ =>
  }

  // ---- Runs ----

  lemma {:induction false} RunSafe(alloc: Allocator, st: State, calls: seq<Call>, bumps: nat)
    requires FindsFree(alloc) && Safe(st, bumps) && bumps + Bumps(calls) < WORD
    ensures Run(alloc, st, calls).Finished?
    decreases |calls|
  {
    if calls == [] {
    } else {
      StepSafe(alloc, st, calls[0], bumps);
      RunSafe(alloc, Step(alloc, st, calls[0]).state, calls[1..], if MayBump(calls[0]) then bumps + 1 else bumps);
    }
  }

  /** No run with at most `n` removals and clears follows a dead address. */
  ghost predicate NeverDangles(n: nat) {
    forall alloc: Allocator, calls: seq<Call> | FindsFree(alloc) && Bumps(calls) <= n ::
      Run(alloc, INITIAL, calls).Finished?
  }

  /** Whatever labels are used, the cache is memory safe exactly as long as the epoch cannot wrap. */
  lemma {:induction false} NeverDanglesExactly(n: nat)
    ensures NeverDangles(n) <==> n < WORD
  {
    if n < WORD {
      forall alloc: Allocator, calls: seq<Call> | FindsFree(alloc) && Bumps(calls) <= n
        ensures Run(alloc, INITIAL, calls).Finished?
      { RunSafe(alloc, INITIAL, calls, 0); }
    } else {
      WrappedEpochCrashes(n, WORD);
    }
  }

  lemma {:induction false} WrappedEpochCrashes(n: nat, w: nat)
    requires n >= w && w == WORD
    ensures !NeverDangles(n)
  {
    var add := AddCall(0, 0, 1, ThreadShard(0), [], 0);
    WrappingRunCrashes(SomeAllocator(), w, add);
    WrappingCallsTyped(_ => {}, w, add);
  }
}
