/** The tracer registry of `arion-tracing/src/lib.rs`: writers copy the map, change the copy and publish
it under a lock; readers take whatever is published, without the lock. */
module TracerRegistry {
  import opened Common

  type Tracer = nat

  datatype Key = Key(listener: string, filterChain: nat)

  /** What building a tracer comes to: a configuration without a usable provider is skipped, an
      exporter that cannot be built fails the whole update. */
  datatype Build = Skips | Fails | Builds(tracer: Tracer)

  type TracerMap = map<Key, Tracer>

  datatype Op = Update(configs: map<Key, Build>) | Remove(listeners: set<string>)

  // ---- What an operation means ----

  function Listeners(configs: map<Key, Build>): set<string> {
    set key | key in configs :: key.listener
  }

  function Without(tracers: TracerMap, listeners: set<string>): TracerMap {
    map key | key in tracers && key.listener !in listeners :: tracers[key]
  }

  function Built(configs: map<Key, Build>): TracerMap {
    map key | key in configs && configs[key].Builds? :: configs[key].tracer
  }

  predicate Succeeds(op: Op) {
    op.Update? ==> forall key :: key in op.configs ==> !op.configs[key].Fails?
  }

  /** The map a successful operation leaves. */
  function After(tracers: TracerMap, op: Op): TracerMap {
    match op
    case Update(configs) => Without(tracers, Listeners(configs)) + Built(configs)
    case Remove(listeners) => Without(tracers, listeners)
  }

  predicate Names(op: Op, listener: string) {
    match op
    case Update(configs) => listener in Listeners(configs)
    case Remove(listeners) => listener in listeners
  }

  // ---- The functions ----

  class Registry {
    var tracers: TracerMap

    /** `otel_update_tracers`. Configurations are visited in no particular order. */
    method UpdateTracers(configs: map<Key, Build>) returns (ok: bool)
      modifies this
      ensures ok <==> forall key :: key in configs ==> !configs[key].Fails?
      ensures tracers == if ok then After(old(tracers), Update(configs)) else old(tracers)
      ensures ok ==> forall key ::
        ValueAt(tracers, key)
        == if key in configs && configs[key].Builds? then Some(configs[key].tracer)
           else if key.listener in Listeners(configs) then None else ValueAt(old(tracers), key)
    {
      var current := Without(tracers, Listeners(configs));
      ghost var kept := current;
      assert forall key :: key in configs ==> key !in kept by {
        forall key | key in configs ensures key !in kept { assert key.listener in Listeners(configs); }
      }
      var rest := configs.Keys;
      while rest != {}
        invariant rest <= configs.Keys && unchanged(this)
        invariant forall key :: key in configs.Keys - rest ==> !configs[key].Fails?
        invariant forall key :: key in current <==> key in kept || (key in configs.Keys - rest && configs[key].Builds?)
        invariant forall key :: key in current ==>
          current[key] == if key in configs then configs[key].tracer else kept[key]
      {
        var key :| key in rest;
        match configs[key] {
          case Skips =>
          case Fails => return false;
          case Builds(tracer) => current := current[key := tracer];
        }
        rest := rest - {key};
      }
      assert current == kept + Built(configs);
      tracers := current;
      return true;
    }

    /** `otel_remove_tracers_by_listeners`: a key is kept exactly when it was there and its listener is
        not named, and keeps its tracer. The entries are visited in no particular order. */
    method RemoveTracersByListeners(listeners: set<string>)
      modifies this
      ensures forall key ::
        ValueAt(tracers, key) == if key.listener in listeners then None else ValueAt(old(tracers), key)
      ensures tracers == After(old(tracers), Remove(listeners))
    {
      if listeners == {} {
        WithoutNobody(tracers);
        return;
      }
      var current := tracers;
      var rest := tracers.Keys;
      while rest != {}
        invariant rest <= old(tracers).Keys && unchanged(this)
        invariant forall key :: key in current <==> key in tracers && (key in rest || key.listener !in listeners)
        invariant forall key :: key in current ==> current[key] == tracers[key]
      {
        var key :| key in rest;
        if key.listener in listeners { current := current - {key}; }
        rest := rest - {key};
      }
      assert current == Without(tracers, listeners);
      tracers := current;
    }

    method GetTracer(key: Key) returns (tracer: Option<Tracer>)
      ensures tracer.Some? <==> key in tracers
      ensures tracer.Some? ==> tracer.value == tracers[key]
    {
      tracer := ValueAt(tracers, key);
    }
  }

  lemma {:induction false} WithoutNobody(tracers: TracerMap)
    ensures After(tracers, Remove({})) == tracers
  {
    assert Without(tracers, {}) == tracers;
  }

  // ---- Many writers and readers ----

  datatype Phase =
    | Idle
    | Waiting(op: Op)
    | Locked(op: Op)
    | Loaded(op: Op, snapshot: TracerMap)
    | Ready(op: Op, next: TracerMap)
    | Stored(op: Op)

  /** `asked` lists the calls in the order they began, `ended` in the order they took effect or failed,
      and `seen` what readers were given, with the number of operations committed by then. */
  datatype State = State(
    published: TracerMap,
    lock: Option<ThreadId>,
    phases: map<ThreadId, Phase>,
    asked: seq<Issued<Op>>,
    ended: seq<Issued<Op>>,
    seen: seq<(TracerMap, nat)>)

  const INITIAL := State(map[], None, map[], [], [], [])

  datatype Action =
    | Begin(thread: ThreadId, op: Op)
    | Acquire(thread: ThreadId)
    | Load(thread: ThreadId)
    | Change(thread: ThreadId)
    | Store(thread: ThreadId)
    | Release(thread: ThreadId)
    | Read

  function PhaseOf(phases: map<ThreadId, Phase>, t: ThreadId): Phase {
    if t in phases then phases[t] else Idle
  }

  predicate Enabled(st: State, a: Action) {
    match a
    case Begin(t, _) => PhaseOf(st.phases, t).Idle?
    case Acquire(t) => PhaseOf(st.phases, t).Waiting? && st.lock.None?
    case Load(t) => PhaseOf(st.phases, t).Locked?
    case Change(t) => PhaseOf(st.phases, t).Loaded?
    case Store(t) => PhaseOf(st.phases, t).Ready?
    case Release(t) => PhaseOf(st.phases, t).Stored?
    case Read => true
  }

  function Move(st: State, t: ThreadId, phase: Phase): State {
    st.(phases := st.phases[t := phase])
  }

  function Ended(st: State, t: ThreadId, op: Op): State {
    st.(ended := st.ended + [Issued(t, op)])
  }

  /** Removing nobody returns before it takes the lock. */
  function Step(st: State, a: Action): State
    requires Enabled(st, a)
  {
    match a
    case Begin(t, op) =>
      var begun := st.(asked := st.asked + [Issued(t, op)]);
      if op == Remove({}) then Ended(begun, t, op) else Move(begun, t, Waiting(op))
    case Acquire(t) => Move(st, t, Locked(PhaseOf(st.phases, t).op)).(lock := Some(t))
    case Load(t) => Move(st, t, Loaded(PhaseOf(st.phases, t).op, st.published))
    case Change(t) =>
      var phase := PhaseOf(st.phases, t);
      if Succeeds(phase.op) then Move(st, t, Ready(phase.op, After(phase.snapshot, phase.op)))
      else Ended(Move(st, t, Idle), t, phase.op).(lock := None)
    case Store(t) =>
      var phase := PhaseOf(st.phases, t);
      Ended(Move(st, t, Stored(phase.op)), t, phase.op).(published := phase.next)
    case Release(t) => Move(st, t, Idle).(lock := None)
    case Read => st.(seen := st.seen + [(st.published, |Committed(st.ended)|)])
  }

  ghost predicate Runs(st: State, actions: seq<Action>)
    decreases |actions|
  {
    actions == [] || (Enabled(st, actions[0]) && Runs(Step(st, actions[0]), actions[1..]))
  }

  ghost function Run(st: State, actions: seq<Action>): State
    requires Runs(st, actions)
    decreases |actions|
  {
    if actions == [] then st else Run(Step(st, actions[0]), actions[1..])
  }

  /** The operations that did not fail, in order. */
  function Committed(ended: seq<Issued<Op>>): seq<Op> {
    if ended == [] then []
    else
      var last := ended[|ended| - 1];
      Committed(ended[..|ended| - 1]) + if Succeeds(last.op) then [last.op] else []
  }

  lemma {:induction false} CommittedAppend(ended: seq<Issued<Op>>, call: Issued<Op>)
    ensures Committed(ended + [call]) == if Succeeds(call.op) then Committed(ended) + [call.op] else Committed(ended)
  {
    assert (ended + [call])[..|ended|] == ended;
    assert Committed(ended) + [] == Committed(ended);
  }

  /** The operations applied one after the other to the empty registry. */
  function Serial(ops: seq<Op>): TracerMap {
    if ops == [] then map[] else After(Serial(ops[..|ops| - 1]), ops[|ops| - 1])
  }

  lemma {:induction false} SerialAppend(ops: seq<Op>, op: Op)
    ensures Serial(ops + [op]) == After(Serial(ops), op)
  {
    assert (ops + [op])[..|ops|] == ops;
  }

  predicate InCriticalSection(phase: Phase) {
    phase.Locked? || phase.Loaded? || phase.Ready? || phase.Stored?
  }

  /** The operation a thread has begun and not ended. */
  function Pending(phase: Phase): seq<Op> {
    if phase.Idle? || phase.Stored? then [] else [phase.op]
  }

  ghost predicate LockOk(phases: map<ThreadId, Phase>, lock: Option<ThreadId>) {
    forall t: ThreadId :: InCriticalSection(PhaseOf(phases, t)) <==> lock == Some(t)
  }

  /** What the thread inside has copied is still what is published. */
  ghost predicate CopiesOk(phases: map<ThreadId, Phase>, published: TracerMap) {
    forall t: ThreadId :: CopyOk(PhaseOf(phases, t), published)
  }

  predicate CopyOk(phase: Phase, published: TracerMap) {
    && (phase.Loaded? ==> phase.snapshot == published)
    && (phase.Ready? ==> Succeeds(phase.op) && phase.next == After(published, phase.op))
  }

  ghost predicate SeenOk(seen: seq<(TracerMap, nat)>, committed: seq<Op>) {
    && (forall i :: 0 <= i < |seen| ==> seen[i].1 <= |committed| && seen[i].0 == Serial(committed[..seen[i].1]))
    && (forall i, j :: 0 <= i < j < |seen| ==> seen[i].1 <= seen[j].1)
  }

  ghost predicate CallsOk(phases: map<ThreadId, Phase>, asked: seq<Issued<Op>>, ended: seq<Issued<Op>>) {
    forall t: ThreadId :: Of(t, asked) == Of(t, ended) + Pending(PhaseOf(phases, t))
  }

  ghost predicate Inv(st: State) {
    && st.published == Serial(Committed(st.ended))
    && LockOk(st.phases, st.lock)
    && CopiesOk(st.phases, st.published)
    && SeenOk(st.seen, Committed(st.ended))
    && CallsOk(st.phases, st.asked, st.ended)
  }

  // ---- Steps keep it ----

  lemma {:induction false} SeenGrows(seen: seq<(TracerMap, nat)>, committed: seq<Op>, op: Op)
    requires SeenOk(seen, committed)
    ensures SeenOk(seen, committed + [op])
  {
    var more := committed + [op];
    forall i | 0 <= i < |seen| ensures more[..seen[i].1] == committed[..seen[i].1] {}
  }

  lemma {:induction false} CallsMove(phases: map<ThreadId, Phase>, asked: seq<Issued<Op>>, ended: seq<Issued<Op>>,
                                     t: ThreadId, phase: Phase)
    requires CallsOk(phases, asked, ended) && Pending(phase) == Pending(PhaseOf(phases, t))
    ensures CallsOk(phases[t := phase], asked, ended)
  {
    var after := phases[t := phase];
    forall u: ThreadId ensures Of(u, asked) == Of(u, ended) + Pending(PhaseOf(after, u)) {
      assert Of(u, asked) == Of(u, ended) + Pending(PhaseOf(phases, u));
    }
  }

  lemma {:induction false} CallsBegin(phases: map<ThreadId, Phase>, asked: seq<Issued<Op>>, ended: seq<Issued<Op>>,
                                      t: ThreadId, op: Op)
    requires CallsOk(phases, asked, ended) && PhaseOf(phases, t).Idle?
    ensures CallsOk(phases[t := Waiting(op)], asked + [Issued(t, op)], ended)
  {
    var more, after := asked + [Issued(t, op)], phases[t := Waiting(op)];
    assert Of(t, asked) == Of(t, ended) + [] == Of(t, ended);
    forall u: ThreadId ensures Of(u, more) == Of(u, ended) + Pending(PhaseOf(after, u)) {
      OfAppend(u, asked, Issued(t, op));
      if u == t { assert PhaseOf(after, u) == Waiting(op); } else { assert PhaseOf(after, u) == PhaseOf(phases, u); }
    }
  }

  lemma {:induction false} CallsBeginAndEnd(phases: map<ThreadId, Phase>, asked: seq<Issued<Op>>,
                                            ended: seq<Issued<Op>>, t: ThreadId, op: Op)
    requires CallsOk(phases, asked, ended) && PhaseOf(phases, t).Idle?
    ensures CallsOk(phases, asked + [Issued(t, op)], ended + [Issued(t, op)])
  {
    var more, done := asked + [Issued(t, op)], ended + [Issued(t, op)];
    forall u: ThreadId ensures Of(u, more) == Of(u, done) + Pending(PhaseOf(phases, u)) {
      OfAppend(u, asked, Issued(t, op));
      OfAppend(u, ended, Issued(t, op));
      assert Of(u, asked) == Of(u, ended) + Pending(PhaseOf(phases, u));
    }
  }

  lemma {:induction false} CallsEnd(phases: map<ThreadId, Phase>, asked: seq<Issued<Op>>, ended: seq<Issued<Op>>,
                                    t: ThreadId, op: Op, phase: Phase)
    requires CallsOk(phases, asked, ended) && Pending(PhaseOf(phases, t)) == [op] && Pending(phase) == []
    ensures CallsOk(phases[t := phase], asked, ended + [Issued(t, op)])
  {
    var done, after := ended + [Issued(t, op)], phases[t := phase];
    forall u: ThreadId ensures Of(u, asked) == Of(u, done) + Pending(PhaseOf(after, u)) {
      OfAppend(u, ended, Issued(t, op));
      assert Of(u, asked) == Of(u, ended) + Pending(PhaseOf(phases, u));
    }
  }

  lemma {:induction false} LockMoves(phases: map<ThreadId, Phase>, lock: Option<ThreadId>, t: ThreadId, phase: Phase,
                                     after: Option<ThreadId>)
    requires LockOk(phases, lock)
    requires if lock == Some(t) then after == (if InCriticalSection(phase) then lock else None)
             else if InCriticalSection(phase) then lock.None? && after == Some(t) else after == lock
    ensures LockOk(phases[t := phase], after)
  {
    var moved := phases[t := phase];
    forall u: ThreadId ensures InCriticalSection(PhaseOf(moved, u)) <==> after == Some(u) {
      assert InCriticalSection(PhaseOf(phases, u)) <==> lock == Some(u);
    }
  }

  lemma {:induction false} CopiesMove(phases: map<ThreadId, Phase>, published: TracerMap, t: ThreadId, phase: Phase)
    requires CopiesOk(phases, published) && CopyOk(phase, published)
    ensures CopiesOk(phases[t := phase], published)
  {
    var moved := phases[t := phase];
    forall u: ThreadId ensures CopyOk(PhaseOf(moved, u), published) { assert CopyOk(PhaseOf(phases, u), published); }
  }

  /** Publishing disturbs nobody's copy: only the thread inside has one. */
  lemma {:induction false} CopiesPublished(phases: map<ThreadId, Phase>, lock: Option<ThreadId>, t: ThreadId, op: Op,
                                           next: TracerMap)
    requires LockOk(phases, lock) && InCriticalSection(PhaseOf(phases, t))
    ensures CopiesOk(phases[t := Stored(op)], next)
  {
    var moved := phases[t := Stored(op)];
    forall u: ThreadId ensures CopyOk(PhaseOf(moved, u), next) {
      assert InCriticalSection(PhaseOf(phases, u)) <==> lock == Some(u);
      assert lock == Some(t);
    }
  }

  lemma {:induction false} BeginKeeps(st: State, t: ThreadId, op: Op)
    requires Inv(st) && Enabled(st, Begin(t, op))
    ensures Inv(Step(st, Begin(t, op)))
  {
    if op == Remove({}) {
      CallsBeginAndEnd(st.phases, st.asked, st.ended, t, op);
      CommittedAppend(st.ended, Issued(t, op));
      SerialAppend(Committed(st.ended), op);
      WithoutNobody(st.published);
      SeenGrows(st.seen, Committed(st.ended), op);
    } else {
      CallsBegin(st.phases, st.asked, st.ended, t, op);
      assert !InCriticalSection(PhaseOf(st.phases, t));
      LockMoves(st.phases, st.lock, t, Waiting(op), st.lock);
      CopiesMove(st.phases, st.published, t, Waiting(op));
    }
  }

  lemma {:induction false} StoreKeeps(st: State, t: ThreadId)
    requires Inv(st) && Enabled(st, Store(t))
    ensures Inv(Step(st, Store(t)))
  {
    var phase := PhaseOf(st.phases, t);
    assert CopyOk(phase, st.published) && InCriticalSection(phase);
    CommittedAppend(st.ended, Issued(t, phase.op));
    SerialAppend(Committed(st.ended), phase.op);
    SeenGrows(st.seen, Committed(st.ended), phase.op);
    LockMoves(st.phases, st.lock, t, Stored(phase.op), st.lock);
    CopiesPublished(st.phases, st.lock, t, phase.op, phase.next);
    CallsEnd(st.phases, st.asked, st.ended, t, phase.op, Stored(phase.op));
  }

  lemma {:induction false} FailKeeps(st: State, t: ThreadId)
    requires Inv(st) && Enabled(st, Change(t)) && !Succeeds(PhaseOf(st.phases, t).op)
    ensures Inv(Step(st, Change(t)))
  {
    var phase := PhaseOf(st.phases, t);
    assert InCriticalSection(phase);
    LockMoves(st.phases, st.lock, t, Idle, None);
    CopiesMove(st.phases, st.published, t, Idle);
    CommittedAppend(st.ended, Issued(t, phase.op));
    CallsEnd(st.phases, st.asked, st.ended, t, phase.op, Idle);
  }

  lemma {:induction false} PrepareKeeps(st: State, t: ThreadId)
    requires Inv(st) && Enabled(st, Change(t)) && Succeeds(PhaseOf(st.phases, t).op)
    ensures Inv(Step(st, Change(t)))
  {
    var phase := PhaseOf(st.phases, t);
    var ready := Ready(phase.op, After(phase.snapshot, phase.op));
    assert CopyOk(phase, st.published) && InCriticalSection(phase);
    LockMoves(st.phases, st.lock, t, ready, st.lock);
    CopiesMove(st.phases, st.published, t, ready);
    CallsMove(st.phases, st.asked, st.ended, t, ready);
  }

  lemma {:induction false} MoveKeeps(st: State, a: Action)
    requires Inv(st) && Enabled(st, a) && (a.Acquire? || a.Load? || a.Release?)
    ensures Inv(Step(st, a))
  {
    var t, after := a.thread, Step(st, a);
    assert InCriticalSection(PhaseOf(st.phases, t)) <==> st.lock == Some(t);
    LockMoves(st.phases, st.lock, t, after.phases[t], after.lock);
    CopiesMove(st.phases, st.published, t, after.phases[t]);
    CallsMove(st.phases, st.asked, st.ended, t, after.phases[t]);
  }

  lemma {:induction false} ReadKeeps(st: State)
    requires Inv(st)
    ensures Inv(Step(st, Read))
  {
    var committed := Committed(st.ended);
    assert committed[..|committed|] == committed;
  }

  lemma {:induction false} StepKeeps(st: State, a: Action)
    requires Inv(st) && Enabled(st, a)
    ensures Inv(Step(st, a))
  {
    match a
    case Begin(t, op) => BeginKeeps(st, t, op);
    case Store(t) => StoreKeeps(st, t);
    case Read => ReadKeeps(st);
    case Change(t) =>
      if Succeeds(PhaseOf(st.phases, t).op) { PrepareKeeps(st, t); } else { FailKeeps(st, t); }
    case _ => MoveKeeps(st, a);
  }

  lemma {:induction false} RunKeeps(st: State, actions: seq<Action>)
    requires Inv(st) && Runs(st, actions)
    ensures Inv(Run(st, actions))
    decreases |actions|
  {
    if actions == [] {
    } else {
      StepKeeps(st, actions[0]);
      RunKeeps(Step(st, actions[0]), actions[1..]);
    }
  }

  /** In every run the published map is what the operations that did not fail give one after the
      other, in the order they held the lock. Each thread's operations ended exactly once, in its own
      order, save the one it is still at; failed ones left no trace; at most one writer is inside; and
      every reader was given the map after some of the commits, later readers after no fewer. */
  lemma {:induction false} Linearizable(actions: seq<Action>)
    requires Runs(INITIAL, actions)
    ensures
      var st := Run(INITIAL, actions);
      var committed := Committed(st.ended);
      && st.published == Serial(committed)
      && (forall t: ThreadId :: Of(t, st.asked) == Of(t, st.ended) + Pending(PhaseOf(st.phases, t)))
      && (forall t: ThreadId, u: ThreadId ::
            InCriticalSection(PhaseOf(st.phases, t)) && InCriticalSection(PhaseOf(st.phases, u)) ==> t == u)
      && (forall i :: 0 <= i < |st.seen| ==>
            st.seen[i].1 <= |committed| && st.seen[i].0 == Serial(committed[..st.seen[i].1]))
      && (forall i, j :: 0 <= i < j < |st.seen| ==> st.seen[i].1 <= st.seen[j].1)
  {
    RunKeeps(INITIAL, actions);
  }

  /** A key whose listener no later operation names is published as it was: untouched listeners keep
      their tracers through any sequence of commits. */
  lemma {:induction false} UnnamedListenersKept(ops: seq<Op>, from: nat, key: Key)
    requires from <= |ops| && forall i :: from <= i < |ops| ==> !Names(ops[i], key.listener)
    ensures key in Serial(ops) <==> key in Serial(ops[..from])
    ensures key in Serial(ops) ==> Serial(ops)[key] == Serial(ops[..from])[key]
    decreases |ops|
  {
    if from == |ops| { assert ops[..from] == ops; }
    else {
      UnnamedListenersKept(ops[..|ops| - 1], from, key);
      assert ops[..|ops| - 1][..from] == ops[..from];
    }
  }
}
