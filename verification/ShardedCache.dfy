/** `ShardedU64` as it runs: counters live at addresses, every thread keeps a cache of the
addresses it used last, and an epoch that `remove` and `clear` bump tells a thread when its
cache is stale.

Addresses are reused: the allocator may hand out any address that is not live. A step that
follows a dead address is `Dangling`. `AgreesExactly` says for which label typings and how many
bumps of the 64-bit epoch no run can be told apart from the uncached map of module `Counters`. */
module ShardedCache {
  import opened Common
  import opened Labels
  import opened Counters

  type MetricId = nat

  /** Any allocator: which free address it picks may depend on anything, hence the hint. */
  type Allocator = (set<Addr>, nat) -> Addr

  ghost predicate FindsFree(alloc: Allocator) {
    forall live: set<Addr>, hint: nat :: alloc(live, hint) !in live
  }

  // ---- State ----

  datatype Entry = Entry(key: LabelSet, shard: ThreadId, cell: Addr)

  /** A thread's cached cells of one metric: a `BTreeMap` from label sets, as its entry list. */
  datatype PerMetric = PerMetric(epoch: nat, cells: seq<Entry>)

  type Cache = map<MetricId, PerMetric>

  type Cells = map<Shard, map<LabelSet, Addr>>

  datatype Metric = Metric(data: Cells, epoch: nat)

  datatype State = State(memory: map<Addr, nat>, metrics: map<MetricId, Metric>, tls: map<ThreadId, Cache>)

  const INITIAL := State(map[], map[], map[])

  /** A metric nobody has touched is as `ShardedU64::new` leaves it. */
  function MetricOf(metrics: map<MetricId, Metric>, m: MetricId): Metric {
    if m in metrics then metrics[m] else Metric(map[], 0)
  }

  function CacheOf(tls: map<ThreadId, Cache>, t: ThreadId): Cache {
    if t in tls then tls[t] else map[]
  }

  // ---- The cache ----

  /** `BTreeMap::get`: the entry whose key compares equal. */
  function Find(cells: seq<Entry>, key: LabelSet): Option<Entry> {
    if cells == [] then None
    else if CompareLabels(cells[0].key, key) == Equal then Some(cells[0])
    else Find(cells[1..], key)
  }

  /** `BTreeMap::insert`: an equal key stays and only its value is replaced. */
  function Insert(cells: seq<Entry>, e: Entry): seq<Entry> {
    if cells == [] then [e]
    else if CompareLabels(cells[0].key, e.key) == Equal then [e.(key := cells[0].key)] + cells[1..]
    else [cells[0]] + Insert(cells[1..], e)
  }

  /** `cache_lookup`: a stale cache is emptied on the way. */
  function Lookup(cache: Cache, owner: MetricId, epoch: nat, shard: ThreadId, key: LabelSet): (Cache, Option<Addr>) {
    if owner !in cache then (cache, None)
    else if cache[owner].epoch != epoch then (cache[owner := PerMetric(epoch, [])], None)
    else
      var hit := Find(cache[owner].cells, key);
      (cache, if hit.Some? && hit.value.shard == shard then Some(hit.value.cell) else None)
  }

  /** `cache_store`. */
  function Store(cache: Cache, owner: MetricId, epoch: nat, e: Entry): Cache {
    var cells := if owner in cache && cache[owner].epoch == epoch then cache[owner].cells else [];
    cache[owner := PerMetric(epoch, Insert(cells, e))]
  }

  // ---- Calls ----

  datatype Call =
    | AddCall(thread: ThreadId, metric: MetricId, value: nat, shard: Shard, key: LabelSet, hint: nat)
    | SubCall(thread: ThreadId, metric: MetricId, value: nat, shard: Shard, key: LabelSet)
    | RemoveCall(metric: MetricId, shard: Shard, key: LabelSet)
    | ClearCall(metric: MetricId)
    | LoadCall(metric: MetricId, key: LabelSet)
    | LoadAllCall(metric: MetricId)

  datatype Answer =
    | Silent
    | Removed(removed: Option<nat>)
    | Loaded(total: Option<nat>)
    | LoadedAll(totals: map<LabelSet, nat>)

  datatype Outcome = Dangling | Done(state: State, answer: Answer)

  /** The counters a metric shows: its addresses, followed. */
  function View(memory: map<Addr, nat>, data: Cells): Counts {
    map s | s in data :: (map k | k in data[s] && data[s][k] in memory :: memory[data[s][k]])
  }

  function ViewOf(st: State, m: MetricId): Counts {
    View(st.memory, MetricOf(st.metrics, m).data)
  }

  function LookupOrInsert(alloc: Allocator, st: State, m: MetricId, shard: Shard, key: LabelSet, hint: nat)
    : (State, Addr)
  {
    var metric := MetricOf(st.metrics, m);
    if Has(metric.data, shard, key) then (st, metric.data[shard][key])
    else
      var cell := alloc(st.memory.Keys, hint);
      var grown := metric.(data := Put(metric.data, shard, key, cell));
      (State(st.memory[cell := 0], st.metrics[m := grown], st.tls), cell)
  }

  function CallLookup(st: State, t: ThreadId, m: MetricId, shard: Shard, key: LabelSet): (Cache, Option<Addr>) {
    var cache := CacheOf(st.tls, t);
    if shard.ThreadShard? then Lookup(cache, m, MetricOf(st.metrics, m).epoch, shard.tid, key) else (cache, None)
  }

  function CallStore(st: State, cache: Cache, m: MetricId, shard: Shard, key: LabelSet, cell: Addr): Cache {
    if shard.ThreadShard? then Store(cache, m, MetricOf(st.metrics, m).epoch, Entry(key, shard.tid, cell)) else cache
  }

  function Write(st: State, t: ThreadId, cache: Cache, cell: Addr, change: nat -> nat): Outcome {
    if cell !in st.memory then Dangling
    else Done(State(st.memory[cell := change(st.memory[cell])], st.metrics, st.tls[t := cache]), Silent)
  }

  function Adding(value: nat): nat -> nat {
    (current: nat) => WrappingAdd(current, value)
  }

  function Subtracting(value: nat): nat -> nat {
    (current: nat) => SaturatingSub(current, value)
  }

  function AddStep(alloc: Allocator, st: State, c: Call): Outcome
    requires c.AddCall?
  {
    var change := Adding(c.value);
    var (cache, hit) := CallLookup(st, c.thread, c.metric, c.shard, c.key);
    if hit.Some? then Write(st, c.thread, cache, hit.value, change)
    else
      var (grown, cell) := LookupOrInsert(alloc, st, c.metric, c.shard, c.key, c.hint);
      Write(grown, c.thread, CallStore(st, cache, c.metric, c.shard, c.key, cell), cell, change)
  }

  function SubStep(st: State, c: Call): Outcome
    requires c.SubCall?
  {
    var change := Subtracting(c.value);
    var (cache, hit) := CallLookup(st, c.thread, c.metric, c.shard, c.key);
    var data := MetricOf(st.metrics, c.metric).data;
    if hit.Some? then Write(st, c.thread, cache, hit.value, change)
    else if Has(data, c.shard, c.key) then
      var cell := data[c.shard][c.key];
      Write(st, c.thread, CallStore(st, cache, c.metric, c.shard, c.key, cell), cell, change)
    else Done(st.(tls := st.tls[c.thread := cache]), Silent)
  }

  function Bumped(epoch: nat): nat {
    (epoch + 1) % WORD
  }

  function AddrsOf(data: Cells): set<Addr> {
    set s, k | s in data && k in data[s] :: data[s][k]
  }

  function RemoveStep(st: State, c: Call): Outcome
    requires c.RemoveCall?
  {
    var metric := MetricOf(st.metrics, c.metric);
    if !Has(metric.data, c.shard, c.key) then Done(st, Removed(None))
    else
      var cell := metric.data[c.shard][c.key];
      var shrunk := Metric(metric.data[c.shard := metric.data[c.shard] - {c.key}], Bumped(metric.epoch));
      if cell !in st.memory then Dangling
      else Done(State(st.memory - {cell}, st.metrics[c.metric := shrunk], st.tls), Removed(Some(st.memory[cell])))
  }

  function ClearStep(st: State, c: Call): Outcome
    requires c.ClearCall?
  {
    var metric := MetricOf(st.metrics, c.metric);
    Done(State(st.memory - AddrsOf(metric.data), st.metrics[c.metric := Metric(map[], Bumped(metric.epoch))], st.tls),
         Silent)
  }

  ghost function Step(alloc: Allocator, st: State, c: Call): Outcome {
    match c
    case AddCall(_, _, _, _, _, _) => AddStep(alloc, st, c)
    case SubCall(_, _, _, _, _) => SubStep(st, c)
    case RemoveCall(_, _, _) => RemoveStep(st, c)
    case ClearCall(_) => ClearStep(st, c)
    case LoadCall(m, key) => Done(st, Loaded(LoadOf(ViewOf(st, m), key)))
    case LoadAllCall(m) => Done(st, LoadedAll(LoadAllOf(ViewOf(st, m))))
  }

  // ---- The same calls on the uncached maps ----

  type Plain = map<MetricId, Counts>

  function CountsOf(p: Plain, m: MetricId): Counts {
    if m in p then p[m] else map[]
  }

  /** What a call does to the one metric it names. */
  function Effect(data: Counts, c: Call): Counts {
    match c
    case AddCall(_, _, v, s, k, _) => Add(data, v, s, k)
    case SubCall(_, _, v, s, k) => Sub(data, v, s, k)
    case RemoveCall(_, s, k) => Remove(data, s, k)
    case ClearCall(_) => map[]
    case _ => data
  }

  ghost function AnswerTo(data: Counts, c: Call): Answer {
    match c
    case RemoveCall(_, s, k) => Removed(Get(data, s, k))
    case LoadCall(_, k) => Loaded(LoadOf(data, k))
    case LoadAllCall(_) => LoadedAll(LoadAllOf(data))
    case _ => Silent
  }

  ghost function PlainStep(p: Plain, c: Call): (Plain, Answer) {
    var data := CountsOf(p, c.metric);
    (p[c.metric := Effect(data, c)], AnswerTo(data, c))
  }

  ghost predicate Agree(st: State, p: Plain) {
    forall m :: ViewOf(st, m) == CountsOf(p, m)
  }

  // ---- Invariant ----

  datatype Slot = Slot(metric: MetricId, shard: Shard, key: LabelSet)

  function CellAt(metrics: map<MetricId, Metric>, slot: Slot): Option<Addr> {
    var data := MetricOf(metrics, slot.metric).data;
    if Has(data, slot.shard, slot.key) then Some(data[slot.shard][slot.key]) else None
  }

  /** Every counter is live and no two share an address. */
  ghost predicate HeapOk(memory: map<Addr, nat>, metrics: map<MetricId, Metric>) {
    && (forall a: Slot :: CellAt(metrics, a).Some? ==> CellAt(metrics, a).value in memory)
    && (forall a: Slot, b: Slot :: CellAt(metrics, a).Some? && CellAt(metrics, a) == CellAt(metrics, b) ==> a == b)
  }

  /** A cached cell is the live cell of its shard and labels. */
  ghost predicate EntryOk(schema: string -> set<ValueKind>, data: Cells, e: Entry) {
    && Conforms(schema, e.key)
    && Has(data, ThreadShard(e.shard), e.key)
    && data[ThreadShard(e.shard)][e.key] == e.cell
  }

  /** Only a cache of the current epoch has to be right. */
  ghost predicate PerMetricOk(schema: string -> set<ValueKind>, metric: Metric, cached: PerMetric) {
    && cached.epoch <= metric.epoch
    && (cached.epoch == metric.epoch ==>
          forall i :: 0 <= i < |cached.cells| ==> EntryOk(schema, metric.data, cached.cells[i]))
  }

  ghost predicate CacheOk(schema: string -> set<ValueKind>, metrics: map<MetricId, Metric>, cache: Cache) {
    forall m :: m in cache ==> PerMetricOk(schema, MetricOf(metrics, m), cache[m])
  }

  ghost predicate CachesOk(schema: string -> set<ValueKind>, metrics: map<MetricId, Metric>,
                           tls: map<ThreadId, Cache>) {
    forall t :: CacheOk(schema, metrics, CacheOf(tls, t))
  }

  ghost predicate EpochsOk(metrics: map<MetricId, Metric>, bumps: nat) {
    forall m :: MetricOf(metrics, m).epoch <= bumps
  }

  ghost predicate Inv(schema: string -> set<ValueKind>, st: State, bumps: nat) {
    && HeapOk(st.memory, st.metrics)
    && EpochsOk(st.metrics, bumps)
    && CachesOk(schema, st.metrics, st.tls)
  }
}
