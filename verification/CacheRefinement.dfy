/** The cached metric is the plain metric: simulation of every call, and the exact conditions. */
module CacheRefinement {
  import opened Common
  import opened Labels
  import opened Counters
  import opened ShardedCache

  // ---- The cache on its own ----

  ghost predicate AllOk(schema: string -> set<ValueKind>, data: Cells, cells: seq<Entry>) {
    forall i :: 0 <= i < |cells| ==> EntryOk(schema, data, cells[i])
  }

  lemma {:induction false} FindExact(schema: string -> set<ValueKind>, data: Cells, cells: seq<Entry>, key: LabelSet)
    requires forall k :: Compatible(schema(k))
    requires Conforms(schema, key) && AllOk(schema, data, cells)
    ensures Find(cells, key).Some?
      ==> Find(cells, key).value.key == key && EntryOk(schema, data, Find(cells, key).value)
  {
    if cells == [] {
    } else {
      LabelsLawful(schema, cells[0].key, key, key);
      FindExact(schema, data, cells[1..], key);
    }
  }

  lemma {:induction false} InsertOk(schema: string -> set<ValueKind>, data: Cells, cells: seq<Entry>, e: Entry)
    requires forall k :: Compatible(schema(k))
    requires AllOk(schema, data, cells) && EntryOk(schema, data, e)
    ensures AllOk(schema, data, Insert(cells, e))
  {
    if cells == [] {
    } else {
      LabelsLawful(schema, cells[0].key, e.key, e.key);
      InsertOk(schema, data, cells[1..], e);
    }
  }

  lemma {:induction false} LookupOk(schema: string -> set<ValueKind>, metrics: map<MetricId, Metric>, cache: Cache,
                                    m: MetricId, shard: ThreadId, key: LabelSet)
    requires forall k :: Compatible(schema(k))
    requires Conforms(schema, key) && CacheOk(schema, metrics, cache)
    ensures
      var metric := MetricOf(metrics, m);
      var (after, hit) := Lookup(cache, m, metric.epoch, shard, key);
      && CacheOk(schema, metrics, after)
      && (hit.Some? ==> EntryOk(schema, metric.data, Entry(key, shard, hit.value)))
  {
    var metric := MetricOf(metrics, m);
    if m in cache && cache[m].epoch == metric.epoch {
      FindExact(schema, metric.data, cache[m].cells, key);
    }
  }

  lemma {:induction false} StoreOk(schema: string -> set<ValueKind>, metrics: map<MetricId, Metric>, cache: Cache,
                                   m: MetricId, e: Entry)
    requires forall k :: Compatible(schema(k))
    requires CacheOk(schema, metrics, cache) && EntryOk(schema, MetricOf(metrics, m).data, e)
    ensures CacheOk(schema, metrics, Store(cache, m, MetricOf(metrics, m).epoch, e))
  {
    var metric := MetricOf(metrics, m);
    InsertOk(schema, metric.data, if m in cache && cache[m].epoch == metric.epoch then cache[m].cells else [], e);
  }

  /** A new cell disturbs no cached one. */
  lemma {:induction false} CacheSurvivesGrowth(schema: string -> set<ValueKind>, metrics: map<MetricId, Metric>,
                                               cache: Cache, m: MetricId, shard: Shard, key: LabelSet, cell: Addr)
    requires CacheOk(schema, metrics, cache) && !Has(MetricOf(metrics, m).data, shard, key)
    ensures
      var metric := MetricOf(metrics, m);
      CacheOk(schema, metrics[m := metric.(data := Put(metric.data, shard, key, cell))], cache)
  {
    var metric := MetricOf(metrics, m);
    var grown := metric.(data := Put(metric.data, shard, key, cell));
    forall e: Entry | EntryOk(schema, metric.data, e) ensures EntryOk(schema, grown.data, e) {}
  }

  /** A bump makes every cache of the metric stale, whatever its cells became. */
  lemma {:induction false} CacheSurvivesBump(schema: string -> set<ValueKind>, metrics: map<MetricId, Metric>,
                                             cache: Cache, m: MetricId, after: Metric)
    requires CacheOk(schema, metrics, cache) && after.epoch > MetricOf(metrics, m).epoch
    ensures CacheOk(schema, metrics[m := after], cache)
  {
  }

  lemma {:induction false} CachesAfterReplacing(schema: string -> set<ValueKind>, metrics: map<MetricId, Metric>,
                                                tls: map<ThreadId, Cache>, t: ThreadId, cache: Cache)
    requires CachesOk(schema, metrics, tls) && CacheOk(schema, metrics, cache)
    ensures CachesOk(schema, metrics, tls[t := cache])
  {
    var after := tls[t := cache];
    forall t' ensures CacheOk(schema, metrics, CacheOf(after, t')) {
      assert CacheOk(schema, metrics, CacheOf(tls, t'));
    }
  }

  // ---- Memory ----

  lemma {:induction false} Extensional(a: Counts, b: Counts)
    requires a.Keys == b.Keys && forall s, k :: Get(a, s, k) == Get(b, s, k)
    ensures a == b
  {
    forall s | s in a ensures a[s] == b[s] {
      forall k ensures (k in a[s] <==> k in b[s]) && (k in a[s] ==> a[s][k] == b[s][k]) {
        assert Get(a, s, k) == Get(b, s, k);
      }
    }
  }

  /** What a view shows at one slot. */
  lemma {:induction false} ViewAt(memory: map<Addr, nat>, metrics: map<MetricId, Metric>, slot: Slot)
    requires HeapOk(memory, metrics)
    ensures Get(View(memory, MetricOf(metrics, slot.metric).data), slot.shard, slot.key)
         == match CellAt(metrics, slot) case Some(cell) => Some(memory[cell]) case None => None
  {
  }

  /** Changing the value in one live cell changes one counter of one metric. */
  lemma {:induction false} ViewAfterWrite(memory: map<Addr, nat>, metrics: map<MetricId, Metric>, slot: Slot,
                                          value: nat, m: MetricId)
    requires HeapOk(memory, metrics) && CellAt(metrics, slot).Some?
    ensures
      var data := MetricOf(metrics, m).data;
      View(memory[CellAt(metrics, slot).value := value], data)
      == if m == slot.metric then Put(View(memory, data), slot.shard, slot.key, value) else View(memory, data)
    ensures HeapOk(memory[CellAt(metrics, slot).value := value], metrics)
  {
    var after := memory[CellAt(metrics, slot).value := value];
    var data := MetricOf(metrics, m).data;
    var before := View(memory, data);
    var expected := if m == slot.metric then Put(before, slot.shard, slot.key, value) else before;
    forall s, k ensures Get(View(after, data), s, k) == Get(expected, s, k) {
      ViewAt(memory, metrics, Slot(m, s, k));
      ViewAt(after, metrics, Slot(m, s, k));
      assert CellAt(metrics, Slot(m, s, k)) == CellAt(metrics, slot) ==> Slot(m, s, k) == slot;
    }
    Extensional(View(after, data), expected);
  }

  function Grow(metrics: map<MetricId, Metric>, slot: Slot, cell: Addr): map<MetricId, Metric> {
    var metric := MetricOf(metrics, slot.metric);
    metrics[slot.metric := metric.(data := Put(metric.data, slot.shard, slot.key, cell))]
  }

  lemma {:induction false} CellAfterGrowth(metrics: map<MetricId, Metric>, slot: Slot, cell: Addr, asked: Slot)
    ensures CellAt(Grow(metrics, slot, cell), asked) == if asked == slot then Some(cell) else CellAt(metrics, asked)
  {
  }

  /** A fresh cell holding zero, in a slot that was empty. */
  lemma {:induction false} HeapAfterGrowth(memory: map<Addr, nat>, metrics: map<MetricId, Metric>, slot: Slot,
                                           cell: Addr)
    requires HeapOk(memory, metrics) && CellAt(metrics, slot).None? && cell !in memory
    ensures HeapOk(memory[cell := 0], Grow(metrics, slot, cell))
  {
    var grown := Grow(metrics, slot, cell);
    forall a: Slot ensures CellAt(grown, a) == if a == slot then Some(cell) else CellAt(metrics, a) {
      CellAfterGrowth(metrics, slot, cell, a);
    }
  }

  lemma {:induction false} SlotAfterGrowth(memory: map<Addr, nat>, metrics: map<MetricId, Metric>, slot: Slot,
                                           cell: Addr, asked: Slot)
    requires HeapOk(memory, metrics) && CellAt(metrics, slot).None? && cell !in memory
    ensures
      var before := View(memory, MetricOf(metrics, asked.metric).data);
      Get(View(memory[cell := 0], MetricOf(Grow(metrics, slot, cell), asked.metric).data), asked.shard, asked.key)
      == if asked == slot then Some(0) else Get(before, asked.shard, asked.key)
  {
    HeapAfterGrowth(memory, metrics, slot, cell);
    CellAfterGrowth(metrics, slot, cell, asked);
    ViewAt(memory, metrics, asked);
    ViewAt(memory[cell := 0], Grow(metrics, slot, cell), asked);
  }

  lemma {:induction false} ViewAfterGrowth(memory: map<Addr, nat>, metrics: map<MetricId, Metric>, slot: Slot,
                                           cell: Addr, m: MetricId)
    requires HeapOk(memory, metrics) && CellAt(metrics, slot).None? && cell !in memory
    ensures
      var data := MetricOf(metrics, m).data;
      View(memory[cell := 0], MetricOf(Grow(metrics, slot, cell), m).data)
      == if m == slot.metric then Put(View(memory, data), slot.shard, slot.key, 0) else View(memory, data)
  {
    var before := View(memory, MetricOf(metrics, m).data);
    var expected := if m == slot.metric then Put(before, slot.shard, slot.key, 0) else before;
    var actual := View(memory[cell := 0], MetricOf(Grow(metrics, slot, cell), m).data);
    forall s, k ensures Get(actual, s, k) == Get(expected, s, k) {
      SlotAfterGrowth(memory, metrics, slot, cell, Slot(m, s, k));
      GetAfterPut(before, slot.shard, slot.key, 0, s, k);
    }
    ShardsAfterGrowth(memory, metrics, slot, cell, m);
    Extensional(actual, expected);
  }

  lemma {:induction false} GetAfterPut(data: Counts, shard: Shard, key: LabelSet, value: nat, s: Shard, k: LabelSet)
    ensures Get(Put(data, shard, key, value), s, k) == if s == shard && k == key then Some(value) else Get(data, s, k)
  {
  }

  lemma {:induction false} ShardsAfterGrowth(memory: map<Addr, nat>, metrics: map<MetricId, Metric>, slot: Slot,
                                             cell: Addr, m: MetricId)
    ensures
      var before := View(memory, MetricOf(metrics, m).data);
      View(memory[cell := 0], MetricOf(Grow(metrics, slot, cell), m).data).Keys
      == (if m == slot.metric then Put(before, slot.shard, slot.key, 0) else before).Keys
  {
  }

  // ---- Calls ----

  /** Between two states one metric came to show `counts` and the others show what they did. */
  ghost predicate Changed(st: State, after: State, m: MetricId, counts: Counts) {
    forall m' :: ViewOf(after, m') == if m' == m then counts else ViewOf(st, m')
  }

  lemma {:induction false} AgreeAfterChange(st: State, after: State, p: Plain, m: MetricId, counts: Counts)
    requires Agree(st, p) && Changed(st, after, m, counts)
    ensures Agree(after, p[m := counts])
  {
  }

  lemma {:induction false} WriteOk(schema: string -> set<ValueKind>, st: State, bumps: nat, t: ThreadId, cache: Cache,
                                   slot: Slot, change: nat -> nat)
    requires Inv(schema, st, bumps) && CacheOk(schema, st.metrics, cache) && CellAt(st.metrics, slot).Some?
    ensures
      var outcome := Write(st, t, cache, CellAt(st.metrics, slot).value, change);
      var current := Get(ViewOf(st, slot.metric), slot.shard, slot.key);
      && current.Some?
      && outcome.Done? && outcome.answer == Silent
      && Inv(schema, outcome.state, bumps)
      && Changed(st, outcome.state, slot.metric,
                 Put(ViewOf(st, slot.metric), slot.shard, slot.key, change(current.value)))
  {
    var outcome := Write(st, t, cache, CellAt(st.metrics, slot).value, change);
    CachesAfterReplacing(schema, st.metrics, st.tls, t, cache);
    ViewAt(st.memory, st.metrics, slot);
    var value := change(st.memory[CellAt(st.metrics, slot).value]);
    forall m
      ensures ViewOf(outcome.state, m)
              == if m == slot.metric then Put(ViewOf(st, m), slot.shard, slot.key, value) else ViewOf(st, m)
    { ViewAfterWrite(st.memory, st.metrics, slot, value, m); }
    ViewAfterWrite(st.memory, st.metrics, slot, value, slot.metric);
  }

  lemma {:induction false} CallLookupOk(schema: string -> set<ValueKind>, st: State, bumps: nat, t: ThreadId,
                                        slot: Slot)
    requires forall k :: Compatible(schema(k))
    requires Conforms(schema, slot.key) && Inv(schema, st, bumps)
    ensures
      var (cache, hit) := CallLookup(st, t, slot.metric, slot.shard, slot.key);
      && CacheOk(schema, st.metrics, cache)
      && (hit.Some? ==> CellAt(st.metrics, slot) == hit)
  {
    if slot.shard.ThreadShard? {
      LookupOk(schema, st.metrics, CacheOf(st.tls, t), slot.metric, slot.shard.tid, slot.key);
    }
  }

  lemma {:induction false} CallStoreOk(schema: string -> set<ValueKind>, st: State, cache: Cache, slot: Slot)
    requires forall k :: Compatible(schema(k))
    requires Conforms(schema, slot.key) && CacheOk(schema, st.metrics, cache) && CellAt(st.metrics, slot).Some?
    ensures CacheOk(schema, st.metrics,
                    CallStore(st, cache, slot.metric, slot.shard, slot.key, CellAt(st.metrics, slot).value))
  {
    if slot.shard.ThreadShard? {
      StoreOk(schema, st.metrics, cache, slot.metric,
              Entry(slot.key, slot.shard.tid, CellAt(st.metrics, slot).value));
    }
  }

  lemma {:induction false} GrowOk(schema: string -> set<ValueKind>, alloc: Allocator, st: State, bumps: nat, slot: Slot,
                                  hint: nat, cache: Cache)
    requires FindsFree(alloc) && Inv(schema, st, bumps) && CacheOk(schema, st.metrics, cache)
    requires CellAt(st.metrics, slot).None?
    ensures
      var (grown, cell) := LookupOrInsert(alloc, st, slot.metric, slot.shard, slot.key, hint);
      && Inv(schema, grown, bumps)
      && CellAt(grown.metrics, slot) == Some(cell)
      && CallStore(grown, cache, slot.metric, slot.shard, slot.key, cell)
         == CallStore(st, cache, slot.metric, slot.shard, slot.key, cell)
      && CacheOk(schema, grown.metrics, cache)
      && Changed(st, grown, slot.metric, Put(ViewOf(st, slot.metric), slot.shard, slot.key, 0))
  {
    var (grown, cell) := LookupOrInsert(alloc, st, slot.metric, slot.shard, slot.key, hint);
    assert grown == State(st.memory[cell := 0], Grow(st.metrics, slot, cell), st.tls);
    CellAfterGrowth(st.metrics, slot, cell, slot);
    forall m ensures MetricOf(grown.metrics, m).epoch == MetricOf(st.metrics, m).epoch {}
    CacheSurvivesGrowth(schema, st.metrics, cache, slot.metric, slot.shard, slot.key, cell);
    forall t ensures CacheOk(schema, grown.metrics, CacheOf(st.tls, t)) {
      CacheSurvivesGrowth(schema, st.metrics, CacheOf(st.tls, t), slot.metric, slot.shard, slot.key, cell);
    }
    forall m
      ensures ViewOf(grown, m)
              == if m == slot.metric then Put(ViewOf(st, m), slot.shard, slot.key, 0) else ViewOf(st, m)
    { ViewAfterGrowth(st.memory, st.metrics, slot, cell, m); }
    HeapAfterGrowth(st.memory, st.metrics, slot, cell);
  }

  ghost predicate Simulates(schema: string -> set<ValueKind>, outcome: Outcome, expected: (Plain, Answer), bumps: nat) {
    && outcome.Done?
    && Inv(schema, outcome.state, bumps)
    && Agree(outcome.state, expected.0)
    && outcome.answer == expected.1
  }

  /** A write to the cell of a slot, whichever way the cell was found. */
  lemma {:induction false} WriteSimulates(schema: string -> set<ValueKind>, st: State, p: Plain, bumps: nat,
                                          t: ThreadId, cache: Cache, slot: Slot, change: nat -> nat)
    requires Inv(schema, st, bumps) && Agree(st, p)
    requires CacheOk(schema, st.metrics, cache) && CellAt(st.metrics, slot).Some?
    ensures
      var data := CountsOf(p, slot.metric);
      && Has(data, slot.shard, slot.key)
      && Simulates(schema, Write(st, t, cache, CellAt(st.metrics, slot).value, change),
                   (p[slot.metric := Put(data, slot.shard, slot.key, change(data[slot.shard][slot.key]))], Silent),
                   bumps)
  {
    WriteOk(schema, st, bumps, t, cache, slot, change);
    assert ViewOf(st, slot.metric) == CountsOf(p, slot.metric);
    AgreeAfterChange(st, Write(st, t, cache, CellAt(st.metrics, slot).value, change).state, p, slot.metric,
                     Put(ViewOf(st, slot.metric), slot.shard, slot.key,
                         change(Get(ViewOf(st, slot.metric), slot.shard, slot.key).value)));
  }

  lemma {:induction false} SlotShown(schema: string -> set<ValueKind>, st: State, p: Plain, bumps: nat, slot: Slot)
    requires Inv(schema, st, bumps) && Agree(st, p)
    ensures CellAt(st.metrics, slot).Some? <==> Has(CountsOf(p, slot.metric), slot.shard, slot.key)
    ensures CellAt(st.metrics, slot).Some?
            ==> CellAt(st.metrics, slot).value in st.memory
                && Get(CountsOf(p, slot.metric), slot.shard, slot.key)
                  == Some(st.memory[CellAt(st.metrics, slot).value])
  {
    ViewAt(st.memory, st.metrics, slot);
    assert ViewOf(st, slot.metric) == CountsOf(p, slot.metric);
  }

  lemma {:induction false} AddSimulates(schema: string -> set<ValueKind>, alloc: Allocator, st: State, p: Plain,
                                        c: Call, bumps: nat)
    requires forall k :: Compatible(schema(k))
    requires FindsFree(alloc) && Inv(schema, st, bumps) && Agree(st, p)
    requires c.AddCall? && Conforms(schema, c.key)
    ensures Simulates(schema, AddStep(alloc, st, c), PlainStep(p, c), bumps)
  {
    var slot := Slot(c.metric, c.shard, c.key);
    var change := Adding(c.value);
    var (cache, hit) := CallLookup(st, c.thread, c.metric, c.shard, c.key);
    CallLookupOk(schema, st, bumps, c.thread, slot);
    SlotShown(schema, st, p, bumps, slot);
    if hit.Some? {
      WriteSimulates(schema, st, p, bumps, c.thread, cache, slot, change);
    } else if CellAt(st.metrics, slot).Some? {
      var cell := CellAt(st.metrics, slot).value;
      CallStoreOk(schema, st, cache, slot);
      WriteSimulates(schema, st, p, bumps, c.thread, CallStore(st, cache, c.metric, c.shard, c.key, cell), slot,
          change);
    } else {
      AddToNewSlot(schema, alloc, st, p, c, bumps, cache);
    }
  }

  lemma {:induction false} PutTwice(data: Counts, shard: Shard, key: LabelSet, first: nat, second: nat)
    ensures Put(Put(data, shard, key, first), shard, key, second) == Put(data, shard, key, second)
  {
    var inner: map<LabelSet, nat> := Inner(data, shard);
    assert inner[key := first][key := second] == inner[key := second];
  }

  lemma {:induction false} AddToNewSlot(schema: string -> set<ValueKind>, alloc: Allocator, st: State, p: Plain,
                                        c: Call, bumps: nat, cache: Cache)
    requires forall k :: Compatible(schema(k))
    requires FindsFree(alloc) && Inv(schema, st, bumps) && Agree(st, p)
    requires c.AddCall? && Conforms(schema, c.key)
    requires CacheOk(schema, st.metrics, cache) && CellAt(st.metrics, Slot(c.metric, c.shard, c.key)).None?
    ensures
      var (grown, cell) := LookupOrInsert(alloc, st, c.metric, c.shard, c.key, c.hint);
      Simulates(schema, Write(grown, c.thread, CallStore(st, cache, c.metric, c.shard, c.key, cell), cell,
                              Adding(c.value)), PlainStep(p, c), bumps)
  {
    var slot, data := Slot(c.metric, c.shard, c.key), CountsOf(p, c.metric);
    var (grown, cell) := LookupOrInsert(alloc, st, c.metric, c.shard, c.key, c.hint);
    NewSlotAgrees(schema, alloc, st, p, slot, c.hint, bumps, cache);
    var p' := p[c.metric := Put(data, c.shard, c.key, 0)];
    WriteSimulates(schema, grown, p', bumps, c.thread, CallStore(st, cache, c.metric, c.shard, c.key, cell), slot,
                   Adding(c.value));
    PutTwice(data, c.shard, c.key, 0, WrappingAdd(0, c.value));
    assert Get(data, c.shard, c.key) == None;
    assert p'[c.metric := Add(data, c.value, c.shard, c.key)] == p[c.metric := Add(data, c.value, c.shard, c.key)];
  }

  /** A fresh counter shows as a zero. */
  lemma {:induction false} NewSlotAgrees(schema: string -> set<ValueKind>, alloc: Allocator, st: State, p: Plain,
                                         slot: Slot, hint: nat, bumps: nat, cache: Cache)
    requires forall k :: Compatible(schema(k))
    requires FindsFree(alloc) && Inv(schema, st, bumps) && Agree(st, p) && Conforms(schema, slot.key)
    requires CacheOk(schema, st.metrics, cache) && CellAt(st.metrics, slot).None?
    ensures !Has(CountsOf(p, slot.metric), slot.shard, slot.key)
    ensures
      var (grown, cell) := LookupOrInsert(alloc, st, slot.metric, slot.shard, slot.key, hint);
      && Inv(schema, grown, bumps) && CellAt(grown.metrics, slot) == Some(cell)
      && Agree(grown, p[slot.metric := Put(CountsOf(p, slot.metric), slot.shard, slot.key, 0)])
      && CacheOk(schema, grown.metrics, CallStore(st, cache, slot.metric, slot.shard, slot.key, cell))
  {
    var (grown, cell) := LookupOrInsert(alloc, st, slot.metric, slot.shard, slot.key, hint);
    assert ViewOf(st, slot.metric) == CountsOf(p, slot.metric);
    SlotShown(schema, st, p, bumps, slot);
    GrowOk(schema, alloc, st, bumps, slot, hint, cache);
    AgreeAfterChange(st, grown, p, slot.metric, Put(ViewOf(st, slot.metric), slot.shard, slot.key, 0));
    CallStoreOk(schema, grown, cache, slot);
  }

  lemma {:induction false} SubSimulates(schema: string -> set<ValueKind>, st: State, p: Plain, c: Call, bumps: nat)
    requires forall k :: Compatible(schema(k))
    requires Inv(schema, st, bumps) && Agree(st, p)
    requires c.SubCall? && Conforms(schema, c.key)
    ensures Simulates(schema, SubStep(st, c), PlainStep(p, c), bumps)
  {
    var slot := Slot(c.metric, c.shard, c.key);
    var change := Subtracting(c.value);
    var (cache, hit) := CallLookup(st, c.thread, c.metric, c.shard, c.key);
    CallLookupOk(schema, st, bumps, c.thread, slot);
    SlotShown(schema, st, p, bumps, slot);
    if hit.Some? {
      WriteSimulates(schema, st, p, bumps, c.thread, cache, slot, change);
    } else if CellAt(st.metrics, slot).Some? {
      CallStoreOk(schema, st, cache, slot);
      var cell := CellAt(st.metrics, slot).value;
      WriteSimulates(schema, st, p, bumps, c.thread, CallStore(st, cache, c.metric, c.shard, c.key, cell), slot,
          change);
    } else {
      CachesAfterReplacing(schema, st.metrics, st.tls, c.thread, cache);
      assert ViewOf(st, c.metric) == CountsOf(p, c.metric);
      AgreeAfterChange(st, SubStep(st, c).state, p, c.metric, ViewOf(st, c.metric));
    }
  }

  // ---- Removal ----

  function Shrink(st: State, m: MetricId, data: Cells, freed: set<Addr>): State {
    State(st.memory - freed, st.metrics[m := Metric(data, Bumped(MetricOf(st.metrics, m).epoch))], st.tls)
  }

  /** Slots were dropped from one metric, and only cells of dropped slots were freed. */
  ghost predicate ShrinksTo(metrics: map<MetricId, Metric>, m: MetricId, data: Cells, freed: set<Addr>) {
    && (forall s, k :: Has(data, s, k) ==> CellAt(metrics, Slot(m, s, k)) == Some(data[s][k]))
    && (forall a: Slot :: CellAt(metrics, a).Some? && CellAt(metrics, a).value in freed
                          ==> a.metric == m && !Has(data, a.shard, a.key))
  }

  lemma {:induction false} CellAfterShrink(st: State, m: MetricId, data: Cells, freed: set<Addr>, a: Slot)
    requires ShrinksTo(st.metrics, m, data, freed)
    ensures
      var cell := CellAt(Shrink(st, m, data, freed).metrics, a);
      && (cell == if a.metric == m && !Has(data, a.shard, a.key) then None else CellAt(st.metrics, a))
      && (cell.Some? ==> cell.value !in freed)
  {
  }

  lemma {:induction false} HeapAfterShrink(st: State, m: MetricId, data: Cells, freed: set<Addr>)
    requires HeapOk(st.memory, st.metrics) && ShrinksTo(st.metrics, m, data, freed)
    ensures
      var after := Shrink(st, m, data, freed);
      HeapOk(after.memory, after.metrics)
  {
    var after := Shrink(st, m, data, freed);
    forall a: Slot
      ensures CellAt(after.metrics, a).Some?
              ==> CellAt(after.metrics, a) == CellAt(st.metrics, a) && CellAt(after.metrics, a).value !in freed
    { CellAfterShrink(st, m, data, freed, a); }
  }

  lemma {:induction false} EpochsAfterShrink(st: State, bumps: nat, m: MetricId, data: Cells, freed: set<Addr>)
    requires EpochsOk(st.metrics, bumps) && bumps + 1 < WORD
    ensures
      var after := Shrink(st, m, data, freed);
      EpochsOk(after.metrics, bumps + 1) && MetricOf(after.metrics, m).epoch > MetricOf(st.metrics, m).epoch
  {
    var after := Shrink(st, m, data, freed);
    assert MetricOf(st.metrics, m).epoch <= bumps;
    forall m' ensures MetricOf(after.metrics, m').epoch <= bumps + 1 { assert MetricOf(st.metrics, m').epoch <= bumps; }
  }

  lemma {:induction false} ShrinkOk(schema: string -> set<ValueKind>, st: State, bumps: nat, m: MetricId, data: Cells,
                                    freed: set<Addr>)
    requires Inv(schema, st, bumps) && bumps + 1 < WORD && ShrinksTo(st.metrics, m, data, freed)
    ensures Inv(schema, Shrink(st, m, data, freed), bumps + 1)
  {
    var after := Shrink(st, m, data, freed);
    HeapAfterShrink(st, m, data, freed);
    EpochsAfterShrink(st, bumps, m, data, freed);
    forall t ensures CacheOk(schema, after.metrics, CacheOf(after.tls, t)) {
      assert CacheOk(schema, st.metrics, CacheOf(st.tls, t));
      CacheSurvivesBump(schema, st.metrics, CacheOf(st.tls, t), m, after.metrics[m]);
    }
  }

  lemma {:induction false} ViewAfterShrink(st: State, m: MetricId, data: Cells, freed: set<Addr>, counts: Counts)
    requires HeapOk(st.memory, st.metrics) && ShrinksTo(st.metrics, m, data, freed)
    requires counts.Keys == data.Keys
    requires forall s, k :: Get(counts, s, k) == if Has(data, s, k) then Get(ViewOf(st, m), s, k) else None
    ensures Changed(st, Shrink(st, m, data, freed), m, counts)
  {
    var after := Shrink(st, m, data, freed);
    HeapAfterShrink(st, m, data, freed);
    forall m' ensures ViewOf(after, m') == if m' == m then counts else ViewOf(st, m') {
      var expected := if m' == m then counts else ViewOf(st, m');
      forall s, k ensures Get(ViewOf(after, m'), s, k) == Get(expected, s, k) {
        ViewAt(st.memory, st.metrics, Slot(m', s, k));
        ViewAt(after.memory, after.metrics, Slot(m', s, k));
        CellAfterShrink(st, m, data, freed, Slot(m', s, k));
      }
      Extensional(ViewOf(after, m'), expected);
    }
  }

  lemma {:induction false} RemovedSlot(metrics: map<MetricId, Metric>, slot: Slot)
    requires CellAt(metrics, slot).Some?
    requires forall a: Slot :: CellAt(metrics, a) == CellAt(metrics, slot) ==> a == slot
    ensures
      var data := MetricOf(metrics, slot.metric).data;
      ShrinksTo(metrics, slot.metric, data[slot.shard := data[slot.shard] - {slot.key}], {CellAt(metrics, slot).value})
  {
  }

  lemma {:induction false} ClearedSlots(memory: map<Addr, nat>, metrics: map<MetricId, Metric>, m: MetricId)
    requires HeapOk(memory, metrics)
    ensures ShrinksTo(metrics, m, map[], AddrsOf(MetricOf(metrics, m).data))
  {
    var data := MetricOf(metrics, m).data;
    forall a: Slot | CellAt(metrics, a).Some? && CellAt(metrics, a).value in AddrsOf(data) ensures a.metric == m {
      var s, k :| s in data && k in data[s] && data[s][k] == CellAt(metrics, a).value;
      assert CellAt(metrics, Slot(m, s, k)) == CellAt(metrics, a);
    }
  }

  /** What a call that changes no cache does to the counters, from any sound memory. */
  ghost predicate Affects(st: State, outcome: Outcome, c: Call) {
    && outcome.Done? && outcome.answer == AnswerTo(ViewOf(st, c.metric), c)
    && HeapOk(outcome.state.memory, outcome.state.metrics)
    && Changed(st, outcome.state, c.metric, Effect(ViewOf(st, c.metric), c))
  }

  function WithoutSlot(metrics: map<MetricId, Metric>, slot: Slot): Cells
    requires CellAt(metrics, slot).Some?
  {
    var data := MetricOf(metrics, slot.metric).data;
    data[slot.shard := data[slot.shard] - {slot.key}]
  }

  lemma {:induction false} ViewWithoutSlot(st: State, slot: Slot)
    requires HeapOk(st.memory, st.metrics) && CellAt(st.metrics, slot).Some?
    ensures
      var after := Shrink(st, slot.metric, WithoutSlot(st.metrics, slot), {CellAt(st.metrics, slot).value});
      && HeapOk(after.memory, after.metrics)
      && Changed(st, after, slot.metric, Remove(ViewOf(st, slot.metric), slot.shard, slot.key))
  {
    var shrunk, cell := WithoutSlot(st.metrics, slot), CellAt(st.metrics, slot).value;
    var counts := Remove(ViewOf(st, slot.metric), slot.shard, slot.key);
    RemovedSlot(st.metrics, slot);
    HeapAfterShrink(st, slot.metric, shrunk, {cell});
    forall s, k ensures Get(counts, s, k) == if Has(shrunk, s, k) then Get(ViewOf(st, slot.metric), s, k) else None {
      RemovedAt(st, slot, s, k);
    }
    RemovedKeys(st, slot);
    ViewAfterShrink(st, slot.metric, shrunk, {cell}, counts);
  }

  lemma {:induction false} RemovedKeys(st: State, slot: Slot)
    requires CellAt(st.metrics, slot).Some?
    ensures Remove(ViewOf(st, slot.metric), slot.shard, slot.key).Keys == WithoutSlot(st.metrics, slot).Keys
  {
  }

  lemma {:induction false} RemoveEffect(st: State, c: Call)
    requires HeapOk(st.memory, st.metrics) && c.RemoveCall?
    ensures Affects(st, RemoveStep(st, c), c)
  {
    var slot := Slot(c.metric, c.shard, c.key);
    ViewAt(st.memory, st.metrics, slot);
    if CellAt(st.metrics, slot).Some? {
      var cell := CellAt(st.metrics, slot).value;
      ViewWithoutSlot(st, slot);
      assert RemoveStep(st, c)
          == Done(Shrink(st, c.metric, WithoutSlot(st.metrics, slot), {cell}), Removed(Some(st.memory[cell])));
    } else {
      assert RemoveStep(st, c) == Done(st, Removed(None));
    }
  }

  /** Dropping one slot from the view is dropping it from the cells. */
  lemma {:induction false} RemovedAt(st: State, slot: Slot, s: Shard, k: LabelSet)
    requires HeapOk(st.memory, st.metrics) && CellAt(st.metrics, slot).Some?
    ensures
      var view, shrunk := ViewOf(st, slot.metric), WithoutSlot(st.metrics, slot);
      Get(Remove(view, slot.shard, slot.key), s, k) == if Has(shrunk, s, k) then Get(view, s, k) else None
  {
    ViewAt(st.memory, st.metrics, slot);
    ViewAt(st.memory, st.metrics, Slot(slot.metric, s, k));
  }

  lemma {:induction false} ClearEffect(st: State, c: Call)
    requires HeapOk(st.memory, st.metrics) && c.ClearCall?
    ensures Affects(st, ClearStep(st, c), c)
  {
    var freed := AddrsOf(MetricOf(st.metrics, c.metric).data);
    ClearedSlots(st.memory, st.metrics, c.metric);
    HeapAfterShrink(st, c.metric, map[], freed);
    ViewAfterShrink(st, c.metric, map[], freed, map[]);
  }

  lemma {:induction false} AffectsAgrees(st: State, p: Plain, outcome: Outcome, c: Call)
    requires Agree(st, p) && Affects(st, outcome, c)
    ensures Agree(outcome.state, PlainStep(p, c).0) && outcome.answer == PlainStep(p, c).1
  {
    assert ViewOf(st, c.metric) == CountsOf(p, c.metric);
    AgreeAfterChange(st, outcome.state, p, c.metric, Effect(ViewOf(st, c.metric), c));
  }

  lemma {:induction false} RemoveSimulates(schema: string -> set<ValueKind>, st: State, p: Plain, c: Call, bumps: nat)
    requires Inv(schema, st, bumps) && Agree(st, p) && bumps + 1 < WORD && c.RemoveCall?
    ensures Simulates(schema, RemoveStep(st, c), PlainStep(p, c), bumps + 1)
  {
    var slot, data := Slot(c.metric, c.shard, c.key), MetricOf(st.metrics, c.metric).data;
    RemoveEffect(st, c);
    AffectsAgrees(st, p, RemoveStep(st, c), c);
    if Has(data, c.shard, c.key) {
      assert CellAt(st.metrics, slot) == Some(data[c.shard][c.key]);
      RemovedSlot(st.metrics, slot);
      ShrinkOk(schema, st, bumps, c.metric, data[c.shard := data[c.shard] - {c.key}], {data[c.shard][c.key]});
    } else {
      MoreBumps(schema, st, bumps);
    }
  }

  lemma {:induction false} MoreBumps(schema: string -> set<ValueKind>, st: State, bumps: nat)
    requires Inv(schema, st, bumps)
    ensures Inv(schema, st, bumps + 1)
  {
  }

  lemma {:induction false} ClearSimulates(schema: string -> set<ValueKind>, st: State, p: Plain, c: Call, bumps: nat)
    requires Inv(schema, st, bumps) && Agree(st, p) && bumps + 1 < WORD && c.ClearCall?
    ensures Simulates(schema, ClearStep(st, c), PlainStep(p, c), bumps + 1)
  {
    ClearEffect(st, c);
    AffectsAgrees(st, p, ClearStep(st, c), c);
    ClearedSlots(st.memory, st.metrics, c.metric);
    ShrinkOk(schema, st, bumps, c.metric, map[], AddrsOf(MetricOf(st.metrics, c.metric).data));
  }

  // ---- Runs ----

  datatype RunResult = Crashed | Finished(state: State, answers: seq<Answer>)

  ghost function Run(alloc: Allocator, st: State, calls: seq<Call>): RunResult
    decreases |calls|
  {
    if calls == [] then Finished(st, [])
    else
      match Step(alloc, st, calls[0])
      case Dangling => Crashed
      case Done(next, answer) =>
        match Run(alloc, next, calls[1..])
        case Crashed => Crashed
        case Finished(end, answers) => Finished(end, [answer] + answers)
  }

  ghost function PlainAnswers(p: Plain, calls: seq<Call>): seq<Answer>
    decreases |calls|
  {
    if calls == [] then []
    else [PlainStep(p, calls[0]).1] + PlainAnswers(PlainStep(p, calls[0]).0, calls[1..])
  }

  /** Labels reach the cache through additions and subtractions only. */
  ghost predicate Typed(schema: string -> set<ValueKind>, calls: seq<Call>) {
    forall i :: 0 <= i < |calls| ==> (calls[i].AddCall? || calls[i].SubCall? ==> Conforms(schema, calls[i].key))
  }

  predicate MayBump(c: Call) {
    c.RemoveCall? || c.ClearCall?
  }

  function Bumps(calls: seq<Call>): nat {
    if calls == [] then 0 else (if MayBump(calls[0]) then 1 else 0) + Bumps(calls[1..])
  }

  lemma {:induction false} StepSimulates(schema: string -> set<ValueKind>, alloc: Allocator, st: State, p: Plain,
                                         c: Call, bumps: nat)
    requires forall k :: Compatible(schema(k))
    requires FindsFree(alloc) && Inv(schema, st, bumps) && Agree(st, p)
    requires c.AddCall? || c.SubCall? ==> Conforms(schema, c.key)
    requires MayBump(c) ==> bumps + 1 < WORD
    ensures Simulates(schema, Step(alloc, st, c), PlainStep(p, c), if MayBump(c) then bumps + 1 else bumps)
  {
    match c
    case AddCall(_, _, _, _, _, _) => AddSimulates(schema, alloc, st, p, c, bumps);
    case SubCall(_, _, _, _, _) => SubSimulates(schema, st, p, c, bumps);
    case RemoveCall(_, _, _) => RemoveSimulates(schema, st, p, c, bumps);
    case ClearCall(_) => ClearSimulates(schema, st, p, c, bumps);
    case _ =>
      assert ViewOf(st, c.metric) == CountsOf(p, c.metric);
      AgreeAfterChange(st, st, p, c.metric, ViewOf(st, c.metric));
  }

  lemma {:induction false} ChangedFromAgreement(st: State, after: State, p: Plain, m: MetricId, counts: Counts)
    requires Agree(st, p) && Agree(after, p[m := counts])
    ensures Changed(st, after, m, counts) && CountsOf(p, m) == ViewOf(st, m)
  {
    assert ViewOf(st, m) == CountsOf(p, m);
    forall m' ensures ViewOf(after, m') == if m' == m then counts else ViewOf(st, m') {
      assert ViewOf(after, m') == CountsOf(p[m := counts], m') && ViewOf(st, m') == CountsOf(p, m');
    }
  }

  /** The plain maps a state stands for. */
  ghost function PlainOf(st: State): (p: Plain)
    ensures Agree(st, p)
  {
    map m | m in st.metrics :: ViewOf(st, m)
  }

  /** One call, read off the views alone. */
  lemma {:induction false} CallEffect(schema: string -> set<ValueKind>, alloc: Allocator, st: State, c: Call,
                                      bumps: nat)
    requires forall k :: Compatible(schema(k))
    requires FindsFree(alloc) && Inv(schema, st, bumps)
    requires c.AddCall? || c.SubCall? ==> Conforms(schema, c.key)
    requires MayBump(c) ==> bumps + 1 < WORD
    ensures
      var outcome := Step(alloc, st, c);
      && outcome.Done? && outcome.answer == AnswerTo(ViewOf(st, c.metric), c)
      && Inv(schema, outcome.state, if MayBump(c) then bumps + 1 else bumps)
      && Changed(st, outcome.state, c.metric, Effect(ViewOf(st, c.metric), c))
  {
    var p := PlainOf(st);
    assert ViewOf(st, c.metric) == CountsOf(p, c.metric);
    StepSimulates(schema, alloc, st, p, c, bumps);
    ChangedFromAgreement(st, Step(alloc, st, c).state, p, c.metric, Effect(CountsOf(p, c.metric), c));
  }

  /** Any interleaving of whole calls, from any state the invariant admits. */
  lemma {:induction false} RunSimulates(schema: string -> set<ValueKind>, alloc: Allocator, st: State, p: Plain,
                                        calls: seq<Call>, bumps: nat)
    requires forall k :: Compatible(schema(k))
    requires FindsFree(alloc) && Inv(schema, st, bumps) && Agree(st, p)
    requires Typed(schema, calls) && bumps + Bumps(calls) < WORD
    ensures Run(alloc, st, calls).Finished? && Run(alloc, st, calls).answers == PlainAnswers(p, calls)
    ensures Inv(schema, Run(alloc, st, calls).state, bumps + Bumps(calls))
    decreases |calls|
  {
    if calls == [] {
    } else {
      StepSimulates(schema, alloc, st, p, calls[0], bumps);
      RunSimulates(schema, alloc, Step(alloc, st, calls[0]).state, PlainStep(p, calls[0]).0, calls[1..],
                   if MayBump(calls[0]) then bumps + 1 else bumps);
    }
  }

  // ---- The conditions are necessary ----

  ghost function SomeAllocator(): (alloc: Allocator)
    ensures FindsFree(alloc)
  {
    var alloc := (live: set<Addr>, hint: nat) => Above(live);
    alloc
  }

  function OneCell(key: LabelSet, cell: Addr, value: nat): State {
    State(map[cell := value], map[0 := Metric(map[ThreadShard(0) := map[key := cell]], 0)],
          map[0 := map[0 := PerMetric(0, [Entry(key, 0, cell)])]])
  }

  lemma {:induction false} FirstAdd(alloc: Allocator, key: LabelSet)
    ensures Step(alloc, INITIAL, AddCall(0, 0, 1, ThreadShard(0), key, 0))
      == Done(OneCell(key, alloc({}, 0), 1), Silent)
  {
    var none: Cells := map[];
    assert INITIAL.memory.Keys == {};
    assert Put(none, ThreadShard(0), key, alloc({}, 0)) == map[ThreadShard(0) := map[key := alloc({}, 0)]];
  }

  /** A label set that compares equal to a cached one is counted in the wrong cell. */
  lemma {:induction false} CollidingAdd(alloc: Allocator, first: LabelSet, second: LabelSet, cell: Addr)
    requires CompareLabels(first, second) == Equal
    ensures Step(alloc, OneCell(first, cell, 1), AddCall(0, 0, 1, ThreadShard(0), second, 0))
         == Done(OneCell(first, cell, 2), Silent)
  {
    assert Find([Entry(first, 0, cell)], second) == Some(Entry(first, 0, cell));
  }

  lemma {:induction false} NeverCounted(alloc: Allocator, first: LabelSet, second: LabelSet, cell: Addr)
    requires first != second
    ensures Step(alloc, OneCell(first, cell, 2), LoadCall(0, second)).answer == Loaded(None)
  {
    assert !Known(ViewOf(OneCell(first, cell, 2), 0), second);
  }

  lemma {:induction false} PlainCounts(p: Plain, key: LabelSet)
    ensures
      var after := PlainStep(p, AddCall(0, 0, 1, ThreadShard(0), key, 0)).0;
      PlainStep(after, LoadCall(0, key)).1 != Loaded(None)
  {
    var after := PlainStep(p, AddCall(0, 0, 1, ThreadShard(0), key, 0)).0;
    assert Has(CountsOf(after, 0), ThreadShard(0), key);
  }

  function CollidingCalls(first: LabelSet, second: LabelSet): seq<Call> {
    [AddCall(0, 0, 1, ThreadShard(0), first, 0), AddCall(0, 0, 1, ThreadShard(0), second, 0), LoadCall(0, second)]
  }

  /** Where two colliding additions leave the two sides, and what they answer when asked for the second. */
  lemma {:induction false} CollisionDiverges(alloc: Allocator, first: LabelSet, second: LabelSet, p: Plain)
    requires first != second && CompareLabels(first, second) == Equal
    ensures
      var cell, two, read := alloc({}, 0), AddCall(0, 0, 1, ThreadShard(0), second, 0), LoadCall(0, second);
      && Step(alloc, OneCell(first, cell, 1), two) == Done(OneCell(first, cell, 2), Silent)
      && Step(alloc, OneCell(first, cell, 2), read).answer != PlainStep(PlainStep(p, two).0, read).1
  {
    CollidingAdd(alloc, first, second, alloc({}, 0));
    NeverCounted(alloc, first, second, alloc({}, 0));
    PlainCounts(p, second);
  }

  lemma {:induction false} CollisionIsVisible(alloc: Allocator, first: LabelSet, second: LabelSet)
    requires first != second && CompareLabels(first, second) == Equal
    ensures !Agrees(alloc, CollidingCalls(first, second))
  {
    var one, two := AddCall(0, 0, 1, ThreadShard(0), first, 0), AddCall(0, 0, 1, ThreadShard(0), second, 0);
    var read, cell, p := LoadCall(0, second), alloc({}, 0), PlainStep(map[], one).0;
    FirstAdd(alloc, first);
    CollisionDiverges(alloc, first, second, p);
    assert [one] + [two, read] == CollidingCalls(first, second);
    assert [two, read] == [two] + [read] && [read] == [read] + [];
    if Matches(alloc, INITIAL, map[], [one] + [two, read]) {
      MatchesFrom(alloc, INITIAL, map[], one, [two, read]);
      MatchesFrom(alloc, OneCell(first, cell, 1), p, two, [read]);
      MatchesFrom(alloc, OneCell(first, cell, 2), PlainStep(p, two).0, read, []);
    }
  }

  lemma {:induction false} CollidingCallsTyped(schema: string -> set<ValueKind>, first: LabelSet, second: LabelSet)
    requires Conforms(schema, first) && Conforms(schema, second)
    ensures Typed(schema, CollidingCalls(first, second)) && Bumps(CollidingCalls(first, second)) == 0
  {
    var calls := CollidingCalls(first, second);
    assert calls[1..][1..][1..] == [];
    assert Bumps(calls[1..]) == Bumps(calls[1..][1..]) == 0;
  }

  ghost predicate Matches(alloc: Allocator, st: State, p: Plain, calls: seq<Call>) {
    Run(alloc, st, calls).Finished? && Run(alloc, st, calls).answers == PlainAnswers(p, calls)
  }

  lemma {:induction false} MatchesFrom(alloc: Allocator, st: State, p: Plain, c: Call, rest: seq<Call>)
    requires Matches(alloc, st, p, [c] + rest)
    ensures Step(alloc, st, c).Done? && Step(alloc, st, c).answer == PlainStep(p, c).1
    ensures Matches(alloc, Step(alloc, st, c).state, PlainStep(p, c).0, rest)
  {
    var calls := [c] + rest;
    assert calls[0] == c && calls[1..] == rest;
    var answers, expected := Run(alloc, st, calls).answers, PlainAnswers(p, calls);
    assert answers[0] == expected[0] && answers[1..] == expected[1..];
  }

  function Clears(n: nat): seq<Call> {
    if n == 0 then [] else [ClearCall(0)] + Clears(n - 1)
  }

  /** A thread whose cache is `n` clears away from looking current again, and whose cell is gone by then. */
  ghost predicate Doomed(st: State, cell: Addr, n: nat) {
    && CacheOf(st.tls, 0) == map[0 := PerMetric(0, [Entry([], 0, cell)])]
    && (MetricOf(st.metrics, 0).epoch + n) % WORD == 0
    && MetricOf(st.metrics, 0).epoch < WORD
    && (cell in st.memory ==> n > 0 && cell in AddrsOf(MetricOf(st.metrics, 0).data))
  }

  lemma {:induction false} WrappedEpochDangles(alloc: Allocator, st: State, cell: Addr, n: nat, add: Call)
    requires Doomed(st, cell, n) && add == AddCall(0, 0, 1, ThreadShard(0), [], 0)
    ensures Run(alloc, st, Clears(n) + [add]).Crashed?
    decreases n
  {
    var calls := Clears(n) + [add];
    if n == 0 {
      assert MetricOf(st.metrics, 0).epoch == 0;
      assert Find([Entry([], 0, cell)], []) == Some(Entry([], 0, cell));
      assert calls[0] == add;
    } else {
      var next := ClearStep(st, ClearCall(0)).state;
      BumpTowards(MetricOf(st.metrics, 0).epoch, n);
      assert calls[0] == ClearCall(0) && calls[1..] == Clears(n - 1) + [add];
      WrappedEpochDangles(alloc, next, cell, n - 1, add);
    }
  }

  lemma {:induction false} BumpTowards(epoch: nat, n: nat)
    requires n > 0 && epoch < WORD && (epoch + n) % WORD == 0
    ensures (Bumped(epoch) + n - 1) % WORD == 0
  {
    if epoch + 1 == WORD { assert (n - 1 + WORD) % WORD == 0; }
  }

  lemma {:induction false} ClearsAreClears(n: nat, add: Call)
    requires add.AddCall?
    ensures Bumps(Clears(n) + [add]) == n
    ensures forall i :: 0 <= i < |Clears(n)| ==> Clears(n)[i] == ClearCall(0)
    decreases n
  {
    if n == 0 {
      assert Clears(0) + [add] == [add] && [add][1..] == [];
    } else {
      ClearsAreClears(n - 1, add);
      assert (Clears(n) + [add])[1..] == Clears(n - 1) + [add];
    }
  }

  ghost predicate Agrees(alloc: Allocator, calls: seq<Call>) {
    Matches(alloc, INITIAL, map[], calls)
  }

  /** No run of well-typed calls with at most `n` removals and clears can be told from the plain maps. */
  ghost predicate AlwaysAgrees(schema: string -> set<ValueKind>, n: nat) {
    forall alloc: Allocator, calls: seq<Call>
      | FindsFree(alloc) && Typed(schema, calls) && Bumps(calls) <= n :: Agrees(alloc, calls)
  }

  lemma {:induction false} ConditionsSuffice(schema: string -> set<ValueKind>, n: nat)
    requires (forall k :: Compatible(schema(k))) && n < WORD
    ensures AlwaysAgrees(schema, n)
  {
    forall alloc: Allocator, calls: seq<Call> | FindsFree(alloc) && Typed(schema, calls) && Bumps(calls) <= n
      ensures Agrees(alloc, calls)
    {
      assert forall m :: ViewOf(INITIAL, m) == map[];
      RunSimulates(schema, alloc, INITIAL, map[], calls, 0);
    }
  }

  lemma {:induction false} MixedLabelsDisagree(schema: string -> set<ValueKind>, n: nat, k: string)
    requires !Compatible(schema(k))
    ensures !AlwaysAgrees(schema, n)
  {
    var v := OtherValue(schema(k));
    var other, text := KeyValue(k, v), KeyValue(k, StringValue(Text(v)));
    MixedTypesCollide(k, Text(v), v);
    assert text != other && [text][0] == text && [other][0] == other;
    OneLabelConforms(schema, text);
    OneLabelConforms(schema, other);
    CollisionIsVisible(SomeAllocator(), [text], [other]);
    CollidingCallsTyped(schema, [text], [other]);
  }

  lemma {:induction false} OneCellIsDoomed(cell: Addr, w: nat)
    requires w > 0 && w % WORD == 0
    ensures Doomed(OneCell([], cell, 1), cell, w)
  {
    var data := MetricOf(OneCell([], cell, 1).metrics, 0).data;
    assert ThreadShard(0) in data && [] in data[ThreadShard(0)] && data[ThreadShard(0)][[]] == cell;
  }

  lemma {:induction false} WrappingRunCrashes(alloc: Allocator, w: nat, add: Call)
    requires w > 0 && w % WORD == 0 && add == AddCall(0, 0, 1, ThreadShard(0), [], 0)
    ensures Run(alloc, INITIAL, [add] + (Clears(w) + [add])).Crashed?
  {
    var cell := alloc({}, 0);
    FirstAdd(alloc, []);
    OneCellIsDoomed(cell, w);
    WrappedEpochDangles(alloc, OneCell([], cell, 1), cell, w, add);
    assert ([add] + (Clears(w) + [add]))[1..] == Clears(w) + [add];
  }

  lemma {:induction false} WrappingCallsTyped(schema: string -> set<ValueKind>, w: nat, add: Call)
    requires add == AddCall(0, 0, 1, ThreadShard(0), [], 0)
    ensures
      var calls := [add] + (Clears(w) + [add]);
      Typed(schema, calls) && Bumps(calls) == w
  {
    ClearsAreClears(w, add);
    assert ([add] + (Clears(w) + [add]))[1..] == Clears(w) + [add];
  }

  lemma {:induction false} WrappedEpochDisagrees(schema: string -> set<ValueKind>, n: nat, w: nat)
    requires n >= w && w == WORD
    ensures !AlwaysAgrees(schema, n)
  {
    var add := AddCall(0, 0, 1, ThreadShard(0), [], 0);
    WrappingRunCrashes(SomeAllocator(), w, add);
    WrappingCallsTyped(schema, w, add);
    assert !Agrees(SomeAllocator(), [add] + (Clears(w) + [add]));
  }

  /** The thread-local cache is invisible exactly when no label key mixes strings with another
      type and the epoch cannot wrap: fewer than 2^64 removals and clears. */
  lemma {:induction false} AgreesExactly(schema: string -> set<ValueKind>, n: nat)
    ensures AlwaysAgrees(schema, n) <==> (forall k :: Compatible(schema(k))) && n < WORD
  {
    if exists k :: !Compatible(schema(k)) {
      var k :| !Compatible(schema(k));
      MixedLabelsDisagree(schema, n, k);
    } else if n >= WORD {
      WrappedEpochDisagrees(schema, n, WORD);
    } else {
      ConditionsSuffice(schema, n);
    }
  }
}
