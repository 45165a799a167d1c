/** The process that owns the metrics: the public calls of `ShardedU64` in the form of the source,
each proved to change the counters as the uncached map would.

`add` and `sub` follow a cached address without asking, so all they require is that the address they
follow is live. Every state that fewer than 2^64 bumps lead to meets that, whatever its labels
(`CacheSafety`); that the right counter moves is promised for label keys that do not mix strings
with another type. `remove` and `clear` require nothing of the caches. */
module MetricsProcess {
  import opened Common
  import opened Labels
  import opened Counters
  import opened ShardedCache
  import opened CacheRefinement
  import opened CacheSafety

  class Process {
    var memory: map<Addr, nat>
    var metrics: map<MetricId, Metric>
    var tls: map<ThreadId, Cache>

    /** Which value types each label key may carry. */
    ghost const schema: string -> set<ValueKind>
    ghost var bumps: nat

    ghost function Snapshot(): State
      reads this
    {
      State(memory, metrics, tls)
    }

    /** Every counter of the maps is live and has an address of its own. */
    ghost predicate Sound()
      reads this
    {
      HeapOk(memory, metrics)
    }

    /** No cached address of a current epoch is dead. */
    ghost predicate MemorySafe()
      reads this
    {
      Safe(Snapshot(), bumps) && bumps < WORD
    }

    /** Every cached address of a current epoch is that of the counter it is cached for. */
    ghost predicate Valid()
      reads this
    {
      (forall k :: Compatible(schema(k))) && Inv(schema, Snapshot(), bumps) && bumps < WORD
    }

    /** What each metric shows, as the uncached map would hold it. */
    ghost function Shown(m: MetricId): Counts
      reads this
    {
      ViewOf(Snapshot(), m)
    }

    constructor (ghost schema: string -> set<ValueKind>)
      ensures Sound() && MemorySafe() && this.schema == schema && bumps == 0
      ensures (forall k :: Compatible(schema(k))) ==> Valid()
      ensures forall m :: Shown(m) == map[]
    {
      memory, metrics, tls := map[], map[], map[];
      this.schema := schema;
      bumps := 0;
    }

    method CacheLookup(t: ThreadId, owner: MetricId, epoch: nat, shard: ThreadId, key: LabelSet)
      returns (cell: Option<Addr>)
      modifies this`tls
      ensures (CacheOf(tls, t), cell) == Lookup(old(CacheOf(tls, t)), owner, epoch, shard, key)
      ensures tls == old(tls)[t := CacheOf(tls, t)]
    {
      var cache: Cache := CacheOf(tls, t);
      tls := tls[t := cache];
      if owner !in cache { return None; }
      if cache[owner].epoch != epoch {
        tls := tls[t := cache[owner := PerMetric(epoch, [])]];
        return None;
      }
      var hit := Find(cache[owner].cells, key);
      if hit.None? || hit.value.shard != shard { return None; }
      return Some(hit.value.cell);
    }

    method CacheStore(t: ThreadId, owner: MetricId, epoch: nat, shard: ThreadId, key: LabelSet, cell: Addr)
      modifies this`tls
      ensures tls == old(tls)[t := Store(old(CacheOf(tls, t)), owner, epoch, Entry(key, shard, cell))]
    {
      var cached := PerMetric(epoch, []);
      if owner in CacheOf(tls, t) { cached := CacheOf(tls, t)[owner]; }
      if cached.epoch != epoch { cached := PerMetric(epoch, []); }
      cached := cached.(cells := Insert(cached.cells, Entry(key, shard, cell)));
      tls := tls[t := CacheOf(tls, t)[owner := cached]];
    }

    /** The cell the calling thread should use, if its cache knows; only thread shards are cached. */
    method CachedCell(t: ThreadId, metric: MetricId, shard: Shard, key: LabelSet) returns (cell: Option<Addr>)
      modifies this`tls
      ensures (CacheOf(tls, t), cell) == CallLookup(old(Snapshot()), t, metric, shard, key)
      ensures tls == old(tls)[t := CacheOf(tls, t)]
    {
      if shard.ThreadShard? {
        cell := CacheLookup(t, metric, MetricOf(metrics, metric).epoch, shard.tid, key);
      } else {
        tls, cell := tls[t := CacheOf(tls, t)], None;
      }
    }

    method LookupOrInsertPtr(alloc: Allocator, metric: MetricId, shard: Shard, key: LabelSet, hint: nat)
      returns (cell: Addr)
      modifies this`memory, this`metrics
      ensures (Snapshot(), cell) == LookupOrInsert(alloc, old(Snapshot()), metric, shard, key, hint)
    {
      var found := MetricOf(metrics, metric);
      if Has(found.data, shard, key) { return found.data[shard][key]; }
      cell := alloc(memory.Keys, hint);
      memory, metrics := memory[cell := 0], metrics[metric := Metric(Put(found.data, shard, key, cell), found.epoch)];
    }

    /** The slow path of `add`, after the cache gave no cell. */
    method AddThroughMap(alloc: Allocator, t: ThreadId, metric: MetricId, value: nat, shard: Shard, key: LabelSet,
                         hint: nat)
      requires t in tls
      requires
        var (grown, cell) := LookupOrInsert(alloc, Snapshot(), metric, shard, key, hint);
        cell in grown.memory
      modifies this`memory, this`metrics, this`tls
      ensures
        var before := old(Snapshot());
        var (grown, cell) := LookupOrInsert(alloc, before, metric, shard, key, hint);
        Done(Snapshot(), Silent)
          == Write(grown, t, CallStore(before, before.tls[t], metric, shard, key, cell), cell, Adding(value))
    {
      var epoch := MetricOf(metrics, metric).epoch;
      var live := LookupOrInsertPtr(alloc, metric, shard, key, hint);
      memory := memory[live := WrappingAdd(memory[live], value)];
      if shard.ThreadShard? { CacheStore(t, metric, epoch, shard.tid, key, live); }
    }

    /** The body of `add`, from any state in which the address it follows is live. */
    method AddThroughCache(alloc: Allocator, t: ThreadId, metric: MetricId, value: nat, shard: Shard, key: LabelSet,
                           hint: nat)
      requires AddStep(alloc, Snapshot(), AddCall(t, metric, value, shard, key, hint)).Done?
      modifies this`memory, this`metrics, this`tls
      ensures Snapshot() == AddStep(alloc, old(Snapshot()), AddCall(t, metric, value, shard, key, hint)).state
    {
      ghost var before := Snapshot();
      var cell := CachedCell(t, metric, shard, key);
      AddAfterLookup(alloc, before, AddCall(t, metric, value, shard, key, hint), tls);
      if cell.Some? {
        memory := memory[cell.value := WrappingAdd(memory[cell.value], value)];
      } else {
        AddThroughMap(alloc, t, metric, value, shard, key, hint);
      }
    }

    /** The body of `sub`: a counter nobody created is left uncreated. */
    method SubThroughCache(t: ThreadId, metric: MetricId, value: nat, shard: Shard, key: LabelSet)
      requires SubStep(Snapshot(), SubCall(t, metric, value, shard, key)).Done?
      modifies this`memory, this`tls
      ensures Snapshot() == SubStep(old(Snapshot()), SubCall(t, metric, value, shard, key)).state
    {
      var found := MetricOf(metrics, metric);
      var cell := CachedCell(t, metric, shard, key);
      if cell.Some? {
        memory := memory[cell.value := SaturatingSub(memory[cell.value], value)];
        return;
      }
      if !Has(found.data, shard, key) { return; }
      var live := found.data[shard][key];
      memory := memory[live := SaturatingSub(memory[live], value)];
      if shard.ThreadShard? { CacheStore(t, metric, found.epoch, shard.tid, key, live); }
    }

    // ---- The public calls ----

    /** `add` moves one counter of one metric up, wrapping, creating it at zero first. */
    method Add(alloc: Allocator, t: ThreadId, metric: MetricId, value: nat, shard: Shard, key: LabelSet, hint: nat)
      requires FindsFree(alloc) && AddStep(alloc, Snapshot(), AddCall(t, metric, value, shard, key, hint)).Done?
      modifies this`memory, this`metrics, this`tls
      ensures old(MemorySafe()) ==> MemorySafe()
      ensures old(Valid()) && Conforms(schema, key) ==>
        && Valid()
        && forall m :: Shown(m) == if m == metric then Counters.Add(old(Shown(m)), value, shard, key) else old(Shown(m))
    {
      ghost var call := AddCall(t, metric, value, shard, key, hint);
      if MemorySafe() { AddSafe(alloc, Snapshot(), call, bumps); }
      if Valid() && Conforms(schema, key) { CallEffect(schema, alloc, Snapshot(), call, bumps); }
      AddThroughCache(alloc, t, metric, value, shard, key, hint);
    }

    /** `sub` moves one counter down, stopping at zero. */
    method Sub(t: ThreadId, metric: MetricId, value: nat, shard: Shard, key: LabelSet)
      requires SubStep(Snapshot(), SubCall(t, metric, value, shard, key)).Done?
      modifies this`memory, this`tls
      ensures old(MemorySafe()) ==> MemorySafe()
      ensures old(Valid()) && Conforms(schema, key) ==>
        && Valid()
        && forall m :: Shown(m) == if m == metric then Counters.Sub(old(Shown(m)), value, shard, key) else old(Shown(m))
    {
      ghost var call := SubCall(t, metric, value, shard, key);
      if MemorySafe() { SubSafe(Snapshot(), call, bumps); }
      if Valid() && Conforms(schema, key) { CallEffect(schema, SomeAllocator(), Snapshot(), call, bumps); }
      SubThroughCache(t, metric, value, shard, key);
    }

    /** `remove` returns the counter it dropped and makes every cache of the metric stale, until the
        epoch wraps. */
    method Remove(metric: MetricId, shard: Shard, key: LabelSet) returns (removed: Option<nat>)
      requires Sound()
      modifies this`memory, this`metrics, this`bumps
      ensures Sound() && bumps == old(bumps) + 1
      ensures removed == Get(old(Shown(metric)), shard, key)
      ensures forall m :: Shown(m) == if m == metric then Counters.Remove(old(Shown(m)), shard, key) else old(Shown(m))
      ensures bumps < WORD ==> (old(MemorySafe()) ==> MemorySafe()) && (old(Valid()) ==> Valid())
    {
      ghost var call := RemoveCall(metric, shard, key);
      RemoveEffect(Snapshot(), call);
      DropKeeps(call);
      ghost var outcome := RemoveStep(Snapshot(), call);
      removed := None;
      var found := MetricOf(metrics, metric);
      if Has(found.data, shard, key) {
        var cell := found.data[shard][key];
        removed := Some(memory[cell]);
        memory := memory - {cell};
        metrics := metrics[metric := Metric(found.data[shard := found.data[shard] - {key}], Bumped(found.epoch))];
      }
      bumps := bumps + 1;
      assert outcome == Done(Snapshot(), Removed(removed));
    }

    method Clear(metric: MetricId)
      requires Sound()
      modifies this`memory, this`metrics, this`bumps
      ensures Sound() && bumps == old(bumps) + 1
      ensures forall m :: Shown(m) == if m == metric then map[] else old(Shown(m))
      ensures bumps < WORD ==> (old(MemorySafe()) ==> MemorySafe()) && (old(Valid()) ==> Valid())
    {
      ClearEffect(Snapshot(), ClearCall(metric));
      DropKeeps(ClearCall(metric));
      ghost var outcome := ClearStep(Snapshot(), ClearCall(metric));
      var found := MetricOf(metrics, metric);
      memory := memory - AddrsOf(found.data);
      metrics := metrics[metric := Metric(map[], Bumped(found.epoch))];
      bumps := bumps + 1;
      assert outcome == Done(Snapshot(), Silent);
    }

    /** Dropping counters keeps the caches safe and right as long as the epoch does not wrap. */
    lemma {:induction false} DropKeeps(c: Call)
      requires Sound() && MayBump(c)
      ensures
        var after := (if c.RemoveCall? then RemoveStep(Snapshot(), c) else ClearStep(Snapshot(), c));
        && after.Done?
        && (bumps + 1 < WORD && MemorySafe() ==> Safe(after.state, bumps + 1))
        && (bumps + 1 < WORD && Valid() ==> Inv(schema, after.state, bumps + 1))
    {
      if c.RemoveCall? { RemoveEffect(Snapshot(), c); }
      if bumps + 1 < WORD && MemorySafe() { DropSafe(Snapshot(), c, bumps); }
      if bumps + 1 < WORD && Valid() { CallEffect(schema, SomeAllocator(), Snapshot(), c, bumps); }
    }

    method Load(metric: MetricId, key: LabelSet) returns (total: Option<nat>)
      ensures total == LoadOf(Shown(metric), key)
    {
      total := Counters.Load(View(memory, MetricOf(metrics, metric).data), key);
    }

    method LoadAll(metric: MetricId) returns (totals: map<LabelSet, nat>)
      ensures totals == LoadAllOf(Shown(metric))
    {
      totals := Counters.LoadAll(View(memory, MetricOf(metrics, metric).data));
    }
  }

  /** The lookup may already have been made: what is left of an `add` does not look at other caches. */
  lemma {:induction false} AddAfterLookup(alloc: Allocator, st: State, c: Call, tls: map<ThreadId, Cache>)
    requires c.AddCall?
    requires tls == st.tls[c.thread := CallLookup(st, c.thread, c.metric, c.shard, c.key).0]
    ensures
      var (cache, hit) := CallLookup(st, c.thread, c.metric, c.shard, c.key);
      var looked := st.(tls := tls);
      if hit.Some? then AddStep(alloc, st, c) == Write(looked, c.thread, cache, hit.value, Adding(c.value))
      else
        var (grown, cell) := LookupOrInsert(alloc, looked, c.metric, c.shard, c.key, c.hint);
        AddStep(alloc, st, c)
        == Write(grown, c.thread, CallStore(looked, cache, c.metric, c.shard, c.key, cell), cell, Adding(c.value))
  {
    var (cache, hit) := CallLookup(st, c.thread, c.metric, c.shard, c.key);
    var looked := st.(tls := tls);
    var cell := LookupOrInsert(alloc, looked, c.metric, c.shard, c.key, c.hint).1;
    var stored := CallStore(looked, cache, c.metric, c.shard, c.key, cell);
    assert tls[c.thread := cache] == st.tls[c.thread := cache] && tls[c.thread := stored] == st.tls[c.thread := stored];
  }
}
