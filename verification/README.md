# Verified models of the Arion gateway's core

A Dafny 4.11 project that models the parts of Arion where correctness rests on an argument rather
than on reading one function, and proves that argument for every input, every interleaving or every
reachable state. `dafny verify dfyconfig.toml` checks all of it.

| module | what it models |
|---|---|
| `Common` | what several models share |
| `Labels` | the label order the metrics cache is keyed by |
| `Counters` | `ShardedU64` as a plain two-level map, and what its counters hold after any history |
| `CasLoop` | the compare-exchange loop of `saturating_sub` under interference |
| `ShardedCache`, `CacheRefinement` | `ShardedU64` with its thread-local cell cache, cell addresses that are reused, and a 64-bit epoch; the refinement to `Counters` |
| `CacheSafety` | memory safety of the cache, whatever the labels |
| `MetricsProcess` | the same calls in the imperative form of the source |
| `Histogram` | `ShardedHistogram`: differential buckets, cumulative reads |
| `Interner`, `InternCalls`, `InternerBound` | the lock-free bounded interner as a machine of N threads, its calls under interference, its exact bound |
| `Grammar`, `FormatParser`, `FormatEscapes` | the access-log format compiler, its grammar, its printer and its `%%` escapes |
| `LogFormatter`, `MessageWriter` | filling a compiled format, writing it through a vectored writer |
| `XdsAck` | the delta-xDS ACK/NACK exchange of sender task, receiver task and client |
| `ErrorChain` | classification of error chains of any length |
| `TracerRegistry` | copy, modify and publish under a lock, with lock-free readers |
| `CoreAffinity` | grouping cores by NUMA node and handing them out to runtimes |

Concurrency is modelled by step machines: a state, the actions any thread may take in it, and
theorems about the state after every sequence of enabled actions. Papaya maps, `BTreeMap`,
`ArcSwap` and channels are atomic maps, cells and queues. Integer widths that matter are written
out: counters, epochs and sums of counters wrap at `WORD`, which is 2^64. Every lemma switches
automatic induction off, so each proof is the one that is written.

The main theorems:

- `CacheRefinement.AgreesExactly`: no run of whole calls by any number of threads on any number of
  metrics can tell the cached counters from the plain map, if and only if no label key mixes string
  values with values of another type and the epoch cannot wrap. Both halves of the condition are
  necessary: `MixedLabelsDisagree` counts in the wrong cell, `WrappedEpochDisagrees` follows a dead
  address. `CacheSafety.NeverDanglesExactly`: with any labels at all, no run follows a dead address
  if and only if the epoch cannot wrap.
- `Interner.Canonical`, `AllocationsConserved`, `NoLeaks` and `SoftBound`: one slice per string
  forever, every allocation published, held by one thread or freed, and at most `max + N - 1`
  entries, a bound `InternerBound.SoftBoundIsReached` shows is attained.
- `Grammar.LexExact`, `FormatParser.ParseExact`, `NormalExactly` and `RoundTrip`: the compiler
  accepts exactly the texts of its grammar, reads each in one way, tiles the input, yields exactly
  the normal-form template lists, and reads every one of them back from its printed form.
  `FormatEscapes.EscapesReadExactly`: reading every `%%` as a percent sign gives the same templates
  if and only if no `%%` stands before a placeholder.
- `XdsAck.FirstReplyCompletes` and `EveryPushAccounted`: registration before sending means that no
  first reply is lost, whatever else the client sends, and every dequeued push has exactly one fate.
- `TracerRegistry.Linearizable`: what is published is the serial application of the successful
  updates, each begun operation ends exactly once, and every reader saw a prefix of them.
- `ErrorChain.ClassifyUpstream` and `DownstreamIsImage`: the one-pass loops equal a declarative
  priority rule, and one is the image of the other.

Four findings where the code and its documentation, or the code and the obvious reading, differ. The
model follows the code.

- `%%` becomes `%` only in the literal after the last placeholder. Earlier literals keep both signs
  (arion-format/src/grammar.rs:366, 404): `FormatEscapes.EscapeKept` is the failing input,
  `EscapesReadExactly` the exact condition.
- A registered custom operator is usable only if no built-in name is a prefix of it
  (`FormatParser.CustomUsableExactly`, `ShadowedCustomOperator`), which registration does not check.
- No writer brings a message through that has slices but no byte: `write_to` reports `WriteZero`,
  unless the writer itself fails first (`MessageWriter.WriteTo`). `SilentExactly` says which cells make
  such a message and `SilentMessageArises` builds one.
- A downstream h2 `CONNECT_ERROR` is classified differently by the typed conversion and by the
  chain walk (`ErrorChain.TypedConversionsAgree`).

## Model

| member | source | states |
|---|---|---|
| `Labels.CmpLabels` | arion-metrics/src/sharded.rs:105-118 | the loop computes the lexicographic comparison, keys before values, shorter before longer |
| `Labels.LabelsLawful` | arion-metrics/src/sharded.rs:105-130 | antisymmetric, transitive, and equal only on equal label sets, when no key mixes strings with another type |
| `Labels.LawfulExactly` | arion-metrics/src/sharded.rs:105-130 | that typing condition is exactly when the comparison is a lawful total order |
| `Labels.MixedTypesCollide` | arion-metrics/src/sharded.rs:120-130 | under every key, each number and bool compares equal to its own text and to no other |
| `Labels.NumberBelowBool` | arion-metrics/src/sharded.rs:120-130 | the text fallback still orders numbers and bools, so mixing those two is harmless |
| `Counters.Load` | arion-metrics/src/sharded.rs:306-317 | the loop returns the wrapping sum of one label set's counters over the shards, none if no shard has it |
| `Counters.LoadAll` | arion-metrics/src/sharded.rs:293-304 | the nested loops agree with `load` at every label set, wrapping included |
| `Counters.AddCounters` | arion-metrics/src/sharded.rs:298-301 | the inner loop, also that of lines 481-483: pointwise wrapping sum of two maps |
| `Counters.ApplyAt` | arion-metrics/src/sharded.rs:241-340 | what each call does to one counter: wrapping up, saturating down, dropped, or untouched |
| `Counters.CounterIsReflectedNet` | arion-metrics/src/sharded.rs:195-289 | after any history a counter is adds minus subs less the lowest that running balance ever went |
| `Counters.LoadAgainstNet` | arion-metrics/src/sharded.rs:241-317 | the sum of the counters is never below adds minus subs, and equals it exactly when no shard is ever overdrawn |
| `Counters.LoadDoesNotWrap` | arion-metrics/src/sharded.rs:241-317 | and `load` is that sum as long as all additions to the label set fit a word |
| `CasLoop.ExactlyOnce` | arion-metrics/src/sharded.rs:195-204 | in every interleaving with spurious failures each subtraction commits exactly once, in thread order, and the counter is the serial result |
| `CacheRefinement.LookupOk` | arion-metrics/src/sharded.rs:142-157 | a hit is the live cell of exactly that shard and label set, and a stale cache is emptied |
| `CacheRefinement.StoreOk` | arion-metrics/src/sharded.rs:160-174 | storing a live cell keeps every cached cell of a current epoch live |
| `CacheRefinement.AddSimulates` | arion-metrics/src/sharded.rs:241-263 | a cached `add`, by hit, miss or creation, does what the plain map does and keeps the invariant |
| `CacheRefinement.SubSimulates` | arion-metrics/src/sharded.rs:265-289 | the same for `sub`, which never creates a counter |
| `CacheRefinement.RemoveSimulates` | arion-metrics/src/sharded.rs:323-332 | the same for `remove`, whose freed cell no current cache can still name |
| `CacheRefinement.ClearSimulates` | arion-metrics/src/sharded.rs:335-340 | the same for `clear`, which frees every cell of the metric |
| `CacheRefinement.CallEffect` | arion-metrics/src/sharded.rs:216-340 | one call from any admitted state: answer, new view of its metric, all other metrics unchanged |
| `CacheRefinement.RunSimulates` | arion-metrics/src/sharded.rs:216-340 | any interleaving of whole calls never follows a dead address and answers as the plain map |
| `CacheRefinement.CollisionIsVisible` | arion-metrics/src/sharded.rs:142-157 | two different label sets that compare equal make the cache visible |
| `CacheRefinement.MixedLabelsDisagree` | arion-metrics/src/sharded.rs:120-157 | a key that mixes strings with another type lets some run differ from the plain map |
| `CacheRefinement.WrappedEpochDangles` | arion-metrics/src/sharded.rs:142-157 | 2^64 clears make a stale cache look current and its next use follow a dead address |
| `CacheRefinement.WrappedEpochDisagrees` | arion-metrics/src/sharded.rs:323-340 | so with 2^64 removals or clears some run differs from the plain map |
| `CacheRefinement.AgreesExactly` | arion-metrics/src/sharded.rs:216-340 | the cache is invisible if and only if no key mixes strings with another type and fewer than 2^64 bumps happen |
| `CacheSafety.AddSafe` | arion-metrics/src/sharded.rs:241-263 | with any labels, an `add` follows only live addresses and keeps every cached one live |
| `CacheSafety.SubSafe` | arion-metrics/src/sharded.rs:265-289 | the same for `sub` |
| `CacheSafety.DropSafe` | arion-metrics/src/sharded.rs:323-340 | the same for `remove` and `clear`, until the epoch wraps |
| `CacheSafety.NeverDanglesExactly` | arion-metrics/src/sharded.rs:142-340 | with any labels, no run follows a dead address if and only if fewer than 2^64 bumps happen |
| `MetricsProcess.Process.constructor` | arion-metrics/src/sharded.rs:207-213 | starts with every metric empty, memory safe, and exact for label keys that do not mix strings with another type |
| `MetricsProcess.Process.CacheLookup` | arion-metrics/src/sharded.rs:142-157 | the thread's cache afterwards and the cell found, as the specification's lookup |
| `MetricsProcess.Process.CacheStore` | arion-metrics/src/sharded.rs:160-174 | the thread's cache afterwards, other threads' caches unchanged |
| `MetricsProcess.Process.LookupOrInsertPtr` | arion-metrics/src/sharded.rs:220-230 | the live cell, created at zero at a free address when missing |
| `MetricsProcess.Process.Add` | arion-metrics/src/sharded.rs:241-263 | with any labels keeps every cached address live; with unmixed label keys moves one counter of one metric as the plain map does, and no other |
| `MetricsProcess.Process.Sub` | arion-metrics/src/sharded.rs:265-289 | the same for `sub`, which stops at zero and creates no counter |
| `MetricsProcess.Process.Remove` | arion-metrics/src/sharded.rs:323-332 | from any sound memory returns what the counter showed and drops it alone; caches stay safe and exact until the epoch wraps |
| `MetricsProcess.Process.Clear` | arion-metrics/src/sharded.rs:335-340 | from any sound memory empties one metric alone; caches stay safe and exact until the epoch wraps |
| `MetricsProcess.Process.Load` | arion-metrics/src/sharded.rs:306-317 | reads the plain map's total |
| `MetricsProcess.Process.LoadAll` | arion-metrics/src/sharded.rs:293-304 | reads the plain map's totals |
| `Histogram.Sort` | arion-metrics/src/sharded.rs:492 | bounds in order, a permutation of those given |
| `Histogram.PartitionPoint` | arion-metrics/src/sharded.rs:512 | the bisection splits the bounds into those below the value and the rest |
| `Histogram.ShardedHistogram.constructor` | arion-metrics/src/sharded.rs:491-498 | sorted bounds, duplicates kept, every counter empty |
| `Histogram.ShardedHistogram.Record` | arion-metrics/src/sharded.rs:500-516 | the counters hold the history with this observation added |
| `Histogram.ShardedHistogram.Clear` | arion-metrics/src/sharded.rs:519-527 | the counters hold the empty history, bounds kept |
| `Histogram.ShardedHistogram.LoadCumulativeCounts` | arion-metrics/src/sharded.rs:475-487 | bucket i holds, per label set, the number of values not above the i-th bound, and shows no zeros |
| `Histogram.BucketReads` | arion-metrics/src/sharded.rs:500-516 | a differential bucket reads the number of values between its bounds |
| `Histogram.BucketsAccumulate` | arion-metrics/src/sharded.rs:475-487 | a differential bucket plus the cumulative one below is the cumulative one |
| `Histogram.CumulativeIsMonotone` | arion-metrics/src/sharded.rs:475-487 | cumulative buckets never decrease and never exceed the count |
| `Histogram.SumAndCountRead` | arion-metrics/src/sharded.rs:505-506 | `load` of `sum` is the total of the values and of `count` their number, below overflow; label sets never recorded show nothing |
| `Interner.StepKeeps` | arion-interner/src/papaya.rs:84-144 | every step keeps the invariant, and the map only grows |
| `Interner.Canonical` | arion-interner/src/papaya.rs:84-144 | in every run all answers for a string are one live slice holding it, and it never fails to resolve again |
| `Interner.RefusedOnlyWhenFull` | arion-interner/src/papaya.rs:117-122 | a refused call met a map at least as large as its bound |
| `Interner.AllocationsConserved` | arion-interner/src/papaya.rs:124-142 | each allocation is published, held by exactly one thread, or freed once |
| `Interner.NoLeaks` | arion-interner/src/papaya.rs:124-142 | with all threads idle, live memory is exactly the map's keys |
| `Interner.SoftBound` | arion-interner/src/papaya.rs:117-128 | at most `max + N - 1` entries, none when `max` is zero |
| `InternerBound.SoftBoundIsReached` | arion-interner/src/papaya.rs:117-128 | for every N and every positive bound some run ends with exactly `max + N - 1` entries |
| `InternCalls.SharedInterner.InternBounded` | arion-interner/src/papaya.rs:96-101 | under interference at every point: the canonical slice or a full map, and nothing left held |
| `InternCalls.SharedInterner.InsertSlow` | arion-interner/src/papaya.rs:117-144 | the same for the slow path, loser freed |
| `InternCalls.SharedInterner.Publish` | arion-interner/src/papaya.rs:126-142 | afterwards the string is published, the answer is its slice, and the caller no longer holds the allocation |
| `InternCalls.OthersOnlyGrow` | arion-interner/src/papaya.rs:117-144 | the interference assumed there is what steps of other threads really do |
| `Grammar.LongestPrefix` | arion-format/src/grammar.rs:216-235 | the longest key that is a prefix, none only if no key is |
| `Grammar.ExtractOperatorArg` | arion-format/src/grammar.rs:237-249 | a non-empty argument up to the first closing bracket, and exactly when which error |
| `Grammar.Reads` | arion-format/src/grammar.rs:267-361 | every way to write a placeholder is read as that placeholder, whatever follows |
| `Grammar.ReadWasWritten` | arion-format/src/grammar.rs:267-361 | nothing else is read as a placeholder |
| `Grammar.LexExact` | arion-format/src/grammar.rs:255-419 | the pieces read tile the text, and are the only grammatical pieces that do |
| `FormatParser.ParseRound` | arion-format/src/grammar.rs:260-400 | one round of the loop advances and keeps the outcome |
| `FormatParser.Parse` | arion-format/src/grammar.rs:255-419 | the loop over `i`, `literal_start` and `parts` terminates with the specified templates or error |
| `FormatParser.ParseExact` | arion-format/src/grammar.rs:255-419 | templates result just when the text is grammatical pieces that group to them, literals verbatim except the last |
| `FormatParser.DoubleHalves` | arion-format/src/grammar.rs:404 | halving undoes doubling of percent signs |
| `FormatParser.RoundTrip` | arion-format/src/grammar.rs:255-419 | parsing the printed form of every normal-form list returns that list |
| `FormatParser.NormalExactly` | arion-format/src/grammar.rs:255-419 | the normal-form lists are exactly the results of parsing |
| `FormatParser.HeaderIsPrintable` | arion-format/src/grammar.rs:216-234 | lower-case tokens (section 5.6.2 of RFC 9110) that no special argument prefixes are read back |
| `FormatParser.CustomUsableExactly` | arion-format/src/lib.rs:54-67 | a registered custom name is read back exactly when non-empty and no built-in name is a prefix |
| `FormatParser.ShadowedCustomOperator` | arion-format/src/lib.rs:54-67 | a name with a built-in name as a prefix comes out of compiling no format at all |
| `FormatParser.ShadowedZone` | arion-format/src/lib.rs:54-67 | beside `REQ`, the registrable name `REQUEST_ZONE` is such a name |
| `FormatEscapes.EscapesReadExactly` | arion-format/src/grammar.rs:366-404 | reading every `%%` as a percent sign gives the compiled templates if and only if none stands before a placeholder |
| `FormatEscapes.EscapeKept` | arion-format/src/grammar.rs:366-404 | before any placeholder, `%%` compiles to two percent signs |
| `LogFormatter.TryNew` | arion-format/src/lib.rs:159-184 | literals filled and placeholders unset, or the parse error, or the first unsupported operator |
| `LogFormatter.Formatter.WithContext` | arion-format/src/lib.rs:196-215 | fills unset built-in cells the context answers, in place, and no others |
| `LogFormatter.Formatter.WithValue` | arion-format/src/lib.rs:217-244 | fills unset custom cells from a JSON object's fields |
| `LogFormatter.Formatter.WithCustomValue` | arion-format/src/lib.rs:246-265 | fills unset custom cells of one name unless the value is `null` |
| `LogFormatter.FirstAnswerWins` | arion-format/src/lib.rs:196-265 | after any calls literals are unchanged and each placeholder holds the first answer it was offered |
| `LogFormatter.FamiliesCommute` | arion-format/src/lib.rs:196-265 | swapping adjacent built-in and custom fills anywhere never changes the message |
| `MessageWriter.AdvanceSlices` | arion-format/src/lib.rs:328 | drops exactly the written bytes and leaves no empty slice in front |
| `MessageWriter.WriteSlices` | arion-format/src/lib.rs:318-331 | the loop's contract over any slices, empty ones included |
| `MessageWriter.WriteTo` | arion-format/src/lib.rs:300-332 | success writes exactly the message and returns its length, failure a prefix; no writer succeeds on slices without a byte, and a steady one succeeds exactly otherwise |
| `MessageWriter.SilentExactly` | arion-format/src/lib.rs:305-318 | there are slices but no byte exactly when some cell is written and every written cell is blank |
| `MessageWriter.SilentMessageArises` | arion-format/src/lib.rs:246-265 | one custom operator given the empty string makes such a message |
| `MessageWriter.WrittenIsDisplayed` | arion-format/src/lib.rs:345-360 | the bytes are the UTF-8 of what is displayed, when byte cells are valid UTF-8 |
| `XdsAck.AckTracker.Register` | arion-e2e-tests/src/xds_server.rs:67-69 | afterwards this nonce waits for this push, and every other nonce for what it did |
| `XdsAck.AckTracker.Complete` | arion-e2e-tests/src/xds_server.rs:71-82 | true exactly when pending; then that push alone gets the result |
| `XdsAck.AckTracker.ClearAll` | arion-e2e-tests/src/xds_server.rs:84-86 | nothing pending |
| `XdsAck.EnteredIsWithdrawn` | arion-e2e-tests/src/xds_server.rs:67-82 | completing a freshly registered nonce yields its push and restores the table; completing it again yields nothing |
| `XdsAck.StepKeeps` | arion-e2e-tests/src/xds_server.rs:199-250 | every step keeps the invariant, with a client that may reply anything at any time |
| `XdsAck.TabledIsPending` | arion-e2e-tests/src/xds_server.rs:203-250 | a registered nonce is pending exactly while unanswered and the stream is up |
| `XdsAck.FirstReplyCompletes` | arion-e2e-tests/src/xds_server.rs:203-250 | in every run the first reply to a response the client was sent finds its entry and completes that response's push alone |
| `XdsAck.DeliveriesAreGenuine` | arion-e2e-tests/src/xds_server.rs:203-217 | in every run whatever is on the wire or with the client is the response built for its push, with its nonce |
| `XdsAck.ResultsAreFirstAnswers` | arion-e2e-tests/src/xds_server.rs:231-240 | a push is completed exactly when answered between its registration and the end of the stream, with the first such answer |
| `XdsAck.EveryPushAccounted` | arion-e2e-tests/src/xds_server.rs:203-222 | every dequeued push is exactly one of skipped (no resource to send), in hand, waiting (in the table), completed, cleared (stream down) |
| `XdsAck.ResolvedOnce` | arion-e2e-tests/src/xds_server.rs:199-256 | final fates and the stream that owns the queue never change |
| `ErrorChain.ClassifyUpstream` | arion-lib/src/event_error.rs:827-949 | the one-pass loop equals the priority rule on chains of every length |
| `ErrorChain.ClassifyDownstream` | arion-lib/src/event_error.rs:545-643 | the same for the downstream loop |
| `ErrorChain.VisitUpstream` | arion-lib/src/event_error.rs:848-925 | one round: the link's verdict, or its share added to the accumulators |
| `ErrorChain.VisitDownstream` | arion-lib/src/event_error.rs:559-627 | the same for the downstream loop |
| `ErrorChain.WrappersAreTransparent` | arion-lib/src/event_error.rs:827-949 | opaque wrappers in front change nothing but the message of an unclassified error |
| `ErrorChain.DownstreamIsImage` | arion-lib/src/event_error.rs:545-643 | without one-sided links the downstream class is the image of the upstream class |
| `ErrorChain.TypedConversionsAgree` | arion-lib/src/event_error.rs:682-753 | io and h2 conversions (and 412-485 downstream) agree with the chain walk on single links, downstream h2 exactly unless `CONNECT_ERROR` (section 7 of RFC 9113) |
| `ErrorChain.HyperConversionAgreesExactly` | arion-lib/src/event_error.rs:713-729 | for a hyper error with any chain of sources, exactly when the typed upstream conversion and the walk agree, by its flags and what the sources say |
| `ErrorChain.DownstreamHyperAgreesExactly` | arion-lib/src/event_error.rs:442-461 | the same for the typed downstream conversion, which ignores the sources |
| `TracerRegistry.Registry.UpdateTracers` | arion-tracing/src/lib.rs:120-138 | key by key: built tracers in, other keys of named listeners out, the rest untouched; or, when one exporter fails, nothing |
| `TracerRegistry.Registry.RemoveTracersByListeners` | arion-tracing/src/lib.rs:106-118 | a key is kept exactly when it was there and its listener is not named, with its tracer |
| `TracerRegistry.Registry.GetTracer` | arion-tracing/src/lib.rs:143-146 | reads the published map |
| `TracerRegistry.Linearizable` | arion-tracing/src/lib.rs:106-146 | in every run: each begun operation ends once in its thread's order, no lost update, failures publish nothing, one writer at a time, readers see ever longer prefixes |
| `TracerRegistry.UnnamedListenersKept` | arion-tracing/src/lib.rs:106-138 | keys of listeners no later update names keep their tracer |
| `CoreAffinity.ValuesInOrder` | arion-proxy/src/core_affinity.rs:131 | the groups in increasing order of node |
| `CoreAffinity.GroupByNuma` | arion-proxy/src/core_affinity.rs:101-132 | one group per node present, in order, holding its cores in order; an error exactly when nothing or not every core is mapped |
| `CoreAffinity.GroupsAreWellGrouped` | arion-proxy/src/core_affinity.rs:113-131 | for distinct cores the groups are duplicate-free, disjoint and cover the input |
| `CoreAffinity.SucceedsExactly` | arion-proxy/src/core_affinity.rs:172-224 | runtime r gets its window exactly when the affinity is available and `(r div n + 1) * w` cores are on node `r mod n` |
| `CoreAffinity.RuntimesAreDisjoint` | arion-proxy/src/core_affinity.rs:172-224 | two runtimes never share a core on well-grouped nodes |
| `CoreAffinity.AllPlacedExactly` | arion-proxy/src/core_affinity.rs:172-224 | with or without a configured affinity, all runtimes are placed exactly when its cores are available and every node has room for its share of them |
| `CoreAffinity.OneNodeSuffices` | arion-proxy/src/proxy.rs:74-96 | on one node the computed thread count places every runtime, with at least one core each |

## Left out

- MetricsProcess.Process.Add: says nothing of a call that would follow a dead address, which the source leaves undefined; `CacheSafety.NeverDanglesExactly` says when that cannot happen.
- MetricsProcess.Process.Sub: says nothing of such a call either.
- Interleavings finer than whole metric calls: the map change and the epoch bump are separate writes, and the window between them is not modelled.
- Reuse of a metric's own address for another metric, label values that are floats or arrays, `shard_count`, gauges, and the OpenTelemetry counterpart of each metric.
- Debug builds: sums wrap as in the release profile, where overflow checks are off; the panic of a debug build is not modelled.
- Relaxed memory order and the internals of papaya, `ArcSwap` and the allocator.
- The table of operator names and special arguments: `Grammar` takes any table whose names are non-empty and free of space, percent sign and bracket, as all of the source's are.
- Format texts are sequences of characters, so UTF-8 byte positions are not modelled; decoding of invalid UTF-8 in `Display` is not modelled; JSON numbers and compound values are given as their text.
- The `Context::eval_op` tables: contexts are arbitrary functions from operators to cells.
- `ServerEvent` notifications, the state-of-the-world stream, and the client's disconnection as an event of its own in the xDS server.
- Retry and flag details, `PolyBody` and `TimeoutBody` conversions in the error module.
- Building exporters: an exporter is built, skipped or fails, as the configuration says.
- Text parsing of `/proc/cpuinfo`, `Affinity::Runtimes`, overflow of the window's start, and zero runtimes, where the source divides by zero.
