/** The process-wide interner as a machine of `N` threads.

Each call is a lookup, then, on a miss, the slow path: compare the map's length with the bound,
allocate the string, try to publish it, and, when another thread was first, look the winner up and
free the loser. Every one of those is one step, and any thread may step at any time. Addresses
of freed strings may be handed out again. */
module Interner {
  import opened Common

  /** Where a thread is inside a call. `max` is the bound its call was given. */
  datatype Phase =
    | Idle
    | Missed(s: string, max: nat)
    | Full(s: string, max: nat)
    | Passed(s: string, max: nat)
    | Holding(s: string, max: nat, leaked: Addr)
    | Lost(s: string, max: nat, leaked: Addr)
    | Resolved(s: string, max: nat, leaked: Addr, winner: Addr)

  datatype Return = Return(s: string, max: nat, result: Option<Addr>)

  /** `published` is the map, `live` the strings in memory; the rest is history. */
  datatype State = State(
    published: map<string, Addr>,
    live: map<Addr, string>,
    phases: seq<Phase>,
    returned: seq<Return>,
    allocations: nat,
    frees: nat)

  datatype Action =
    | Intern(thread: nat, s: string, max: nat)
    | Lookup(thread: nat, s: string)
    | Check(thread: nat)
    | LookupWhenFull(thread: nat)
    | Allocate(thread: nat, addr: Addr)
    | TryInsert(thread: nat)
    | FindWinner(thread: nat)
    | Free(thread: nat)

  function Initial(n: nat): State {
    State(map[], map[], seq(n, _ => Idle), [], 0, 0)
  }

  function Move(st: State, t: nat, phase: Phase): State
    requires t < |st.phases|
  {
    st.(phases := st.phases[t := phase])
  }

  function Finish(st: State, t: nat, r: Return): State
    requires t < |st.phases|
  {
    st.(phases := st.phases[t := Idle], returned := st.returned + [r])
  }

  predicate Enabled(st: State, a: Action) {
    && a.thread < |st.phases|
    && var phase := st.phases[a.thread];
       match a
       case Intern(_, _, _) => phase.Idle?
       case Lookup(_, _) => phase.Idle?
       case Check(_) => phase.Missed?
       case LookupWhenFull(_) => phase.Full?
       case Allocate(_, addr) => phase.Passed? && addr !in st.live
       case TryInsert(_) => phase.Holding?
       case FindWinner(_) => phase.Lost?
       case Free(_) => phase.Resolved?
  }

  function Step(st: State, a: Action): State
    requires Enabled(st, a)
  {
    var t := a.thread;
    var phase := st.phases[t];
    match a
    case Intern(_, s, max) =>
      if s in st.published then Finish(st, t, Return(s, max, Some(st.published[s]))) else Move(st, t, Missed(s, max))
    case Lookup(_, s) =>
      Finish(st, t, Return(s, 0, ValueAt(st.published, s)))
    case Check(_) =>
      Move(st, t, if |st.published| >= phase.max then Full(phase.s, phase.max) else Passed(phase.s, phase.max))
    case LookupWhenFull(_) =>
      Finish(st, t, Return(phase.s, phase.max, ValueAt(st.published, phase.s)))
    case Allocate(_, addr) =>
      Move(st, t, Holding(phase.s, phase.max, addr))
        .(live := st.live[addr := phase.s], allocations := st.allocations + 1)
    case TryInsert(_) =>
      if phase.s in st.published then Move(st, t, Lost(phase.s, phase.max, phase.leaked))
      else
        Finish(st, t, Return(phase.s, phase.max, Some(phase.leaked)))
          .(published := st.published[phase.s := phase.leaked])
    case FindWinner(_) =>
      var winner := if phase.s in st.published then st.published[phase.s] else phase.leaked;
      if winner == phase.leaked then Finish(st, t, Return(phase.s, phase.max, Some(winner)))
      else Move(st, t, Resolved(phase.s, phase.max, phase.leaked, winner))
    case Free(_) =>
      Finish(st, t, Return(phase.s, phase.max, Some(phase.winner)))
        .(live := st.live - {phase.leaked}, frees := st.frees + 1)
  }

  /** A run is any sequence of enabled actions of any threads. */
  ghost predicate Runs(st: State, actions: seq<Action>)
    decreases |actions|
  {
    actions == [] || (Enabled(st, actions[0]) && Runs(Step(st, actions[0]), actions[1..]))
  }

  ghost function Run(st: State, actions: seq<Action>): State
    requires Runs(st, actions)
    decreases |actions|
  {
    if actions == [] then st else Run(Step(st, actions[0]), actions[1..])
  }

  // ---- Invariant ----

  /** The allocation a thread has made and not yet published or freed. */
  function HeldBy(phase: Phase): Option<Addr> {
    match phase
    case Holding(_, _, a) => Some(a)
    case Lost(_, _, a) => Some(a)
    case Resolved(_, _, a, _) => Some(a)
    case _ => None
  }

  ghost predicate Published(st: State, addr: Addr) {
    exists s :: s in st.published && st.published[s] == addr
  }

  ghost predicate Held(st: State, addr: Addr) {
    exists t :: 0 <= t < |st.phases| && HeldBy(st.phases[t]) == Some(addr)
  }

  /** What a thread's position promises about the shared state. */
  ghost predicate PhaseOk(st: State, phase: Phase) {
    && (HeldBy(phase).Some? ==>
          && HeldBy(phase).value in st.live && st.live[HeldBy(phase).value] == phase.s
          && !Published(st, HeldBy(phase).value))
    && (phase.Full? ==> |st.published| >= phase.max)
    && (phase.Lost? ==> phase.s in st.published)
    && (phase.Resolved? ==> phase.s in st.published && phase.winner == st.published[phase.s])
  }

  ghost predicate PhasesOk(st: State) {
    forall t :: 0 <= t < |st.phases| ==> PhaseOk(st, st.phases[t])
  }

  ghost predicate KeysOk(st: State) {
    forall s :: s in st.published ==> st.published[s] in st.live && st.live[st.published[s]] == s
  }

  /** Every live string is a published key or in the hands of a thread, and no two threads share one. */
  ghost predicate OwnersOk(st: State) {
    && (forall addr :: addr in st.live ==> Published(st, addr) || Held(st, addr))
    && (forall t, u | 0 <= t < |st.phases| && 0 <= u < |st.phases| ::
          HeldBy(st.phases[t]).Some? && HeldBy(st.phases[t]) == HeldBy(st.phases[u]) ==> t == u)
  }

  /** Everything ever returned is still the answer; nothing was refused below its bound. */
  ghost predicate ReturnsOk(st: State) {
    forall i :: 0 <= i < |st.returned| ==>
      var r := st.returned[i];
      && (r.result.Some? ==> r.s in st.published && st.published[r.s] == r.result.value)
      && (r.result.None? ==> |st.published| >= r.max)
  }

  /** Once a string has resolved, every later answer for it is the same. */
  ghost predicate Consistent(returned: seq<Return>) {
    forall i, j :: 0 <= i <= j < |returned| && returned[i].s == returned[j].s && returned[i].result.Some?
      ==> returned[j].result == returned[i].result
  }

  ghost predicate Inv(st: State) {
    && KeysOk(st) && OwnersOk(st) && ReturnsOk(st) && Consistent(st.returned)
    && PhasesOk(st)
    && st.allocations == |st.live| + st.frees
  }

  // ---- Steps keep the invariant ----

  /** The map only grows, and no key is ever replaced. */
  ghost predicate Grows(before: map<string, Addr>, after: map<string, Addr>) {
    forall s :: s in before ==> s in after && after[s] == before[s]
  }

  lemma {:induction false} GrowthCounts(before: map<string, Addr>, after: map<string, Addr>)
    requires Grows(before, after)
    ensures |before| <= |after|
  {
    SubsetSize(before.Keys, after.Keys);
  }

  lemma {:induction false} SubsetSize<T>(a: set<T>, b: set<T>)
    requires a <= b
    ensures |a| <= |b|
    decreases a
  {
    if a == {} {
    } else {
      var x :| x in a;
      SubsetSize(a - {x}, b - {x});
    }
  }

  /** One more return, answered by the map as it is when the call ends. */
  lemma {:induction false} ReturnKeeps(st: State, after: State, r: Return)
    requires ReturnsOk(st) && Consistent(st.returned) && Grows(st.published, after.published)
    requires after.returned == st.returned + [r]
    requires r.result == ValueAt(after.published, r.s) && (r.result.None? ==> |after.published| >= r.max)
    ensures ReturnsOk(after) && Consistent(after.returned)
  {
    GrowthCounts(st.published, after.published);
    forall i | 0 <= i < |after.returned|
      ensures
        var q := after.returned[i];
        && (q.result.Some? ==> q.s in after.published && after.published[q.s] == q.result.value)
        && (q.result.None? ==> |after.published| >= q.max)
    {
      if i < |st.returned| { assert after.returned[i] == st.returned[i]; }
    }
  }

  lemma {:induction false} NoReturnKeeps(st: State, after: State)
    requires ReturnsOk(st) && Consistent(st.returned) && Grows(st.published, after.published)
    requires after.returned == st.returned
    ensures ReturnsOk(after) && Consistent(after.returned)
  {
    GrowthCounts(st.published, after.published);
  }

  /** A thread moves on without touching the map or the memory, keeping what it holds. */
  lemma {:induction false} MoveKeeps(st: State, after: State, t: nat, phase: Phase)
    requires KeysOk(st) && OwnersOk(st) && PhasesOk(st)
    requires t < |st.phases| && HeldBy(phase) == HeldBy(st.phases[t]) && PhaseOk(st, phase)
    requires after.published == st.published && after.live == st.live && after.phases == st.phases[t := phase]
    ensures KeysOk(after) && OwnersOk(after) && PhasesOk(after)
  {
    forall u | 0 <= u < |st.phases|
      ensures HeldBy(after.phases[u]) == HeldBy(st.phases[u]) && PhaseOk(after, after.phases[u])
    {
      assert PhaseOk(st, st.phases[u]);
      forall addr ensures Published(after, addr) == Published(st, addr) {}
    }
    forall addr | addr in after.live ensures Published(after, addr) || Held(after, addr) {
      if Held(st, addr) {
        var u :| 0 <= u < |st.phases| && HeldBy(st.phases[u]) == Some(addr);
        assert HeldBy(after.phases[u]) == Some(addr);
      } else {
        assert Published(st, addr);
      }
    }
  }

  lemma {:induction false} AllocateKeeps(st: State, t: nat, addr: Addr)
    requires Inv(st) && Enabled(st, Allocate(t, addr))
    ensures Inv(Step(st, Allocate(t, addr)))
  {
    var after := Step(st, Allocate(t, addr));
    forall a | Published(st, a) ensures a in st.live {}
    forall u | 0 <= u < |st.phases| ensures PhaseOk(after, after.phases[u]) {
      assert PhaseOk(st, st.phases[u]);
      forall a ensures Published(after, a) == Published(st, a) {}
    }
    forall a | a in after.live ensures Published(after, a) || Held(after, a) {
      if a == addr {
        assert HeldBy(after.phases[t]) == Some(addr);
      } else if Held(st, a) {
        var u :| 0 <= u < |st.phases| && HeldBy(st.phases[u]) == Some(a);
        assert HeldBy(after.phases[u]) == Some(a);
      } else {
        assert Published(st, a);
      }
    }
    forall u, w | 0 <= u < |st.phases| && 0 <= w < |st.phases|
      ensures HeldBy(after.phases[u]).Some? && HeldBy(after.phases[u]) == HeldBy(after.phases[w]) ==> u == w
    {
      assert PhaseOk(st, st.phases[u]) && PhaseOk(st, st.phases[w]);
    }
    NoReturnKeeps(st, after);
  }

  lemma {:induction false} PublishedAfter(st: State, t: nat, a: Addr)
    requires Enabled(st, TryInsert(t)) && st.phases[t].s !in st.published
    ensures Published(Step(st, TryInsert(t)), a) <==> Published(st, a) || a == st.phases[t].leaked
  {
    var phase, after := st.phases[t], Step(st, TryInsert(t));
    if a == phase.leaked { assert phase.s in after.published && after.published[phase.s] == a; }
    if Published(st, a) {
      var s :| s in st.published && st.published[s] == a;
      assert s in after.published && after.published[s] == a;
    }
  }

  lemma {:induction false} PublishKeepsPhases(st: State, t: nat)
    requires Inv(st) && Enabled(st, TryInsert(t)) && st.phases[t].s !in st.published
    ensures PhasesOk(Step(st, TryInsert(t)))
  {
    var phase, after := st.phases[t], Step(st, TryInsert(t));
    GrowthCounts(st.published, after.published);
    forall u | 0 <= u < |st.phases| ensures PhaseOk(after, after.phases[u]) {
      assert PhaseOk(st, st.phases[u]);
      if u != t && HeldBy(st.phases[u]).Some? {
        assert HeldBy(st.phases[u]) != HeldBy(phase);
        PublishedAfter(st, t, HeldBy(st.phases[u]).value);
      }
    }
  }

  lemma {:induction false} PublishKeepsOwners(st: State, t: nat)
    requires Inv(st) && Enabled(st, TryInsert(t)) && st.phases[t].s !in st.published
    ensures OwnersOk(Step(st, TryInsert(t)))
  {
    var phase, after := st.phases[t], Step(st, TryInsert(t));
    forall a | a in after.live ensures Published(after, a) || Held(after, a) {
      PublishedAfter(st, t, a);
      if Held(st, a) && a != phase.leaked {
        var u :| 0 <= u < |st.phases| && HeldBy(st.phases[u]) == Some(a);
        assert u != t && HeldBy(after.phases[u]) == Some(a);
      }
    }
  }

  lemma {:induction false} PublishKeeps(st: State, t: nat)
    requires Inv(st) && Enabled(st, TryInsert(t)) && st.phases[t].s !in st.published
    ensures Inv(Step(st, TryInsert(t)))
  {
    var phase, after := st.phases[t], Step(st, TryInsert(t));
    assert PhaseOk(st, phase);
    PublishKeepsPhases(st, t);
    PublishKeepsOwners(st, t);
    ReturnKeeps(st, after, Return(phase.s, phase.max, Some(phase.leaked)));
  }

  lemma {:induction false} FreeKeeps(st: State, t: nat)
    requires Inv(st) && Enabled(st, Free(t))
    ensures Inv(Step(st, Free(t)))
  {
    var phase := st.phases[t];
    var after := Step(st, Free(t));
    assert PhaseOk(st, phase);
    forall a ensures Published(after, a) == Published(st, a) {}
    forall s | s in st.published ensures st.published[s] != phase.leaked { assert Published(st, st.published[s]); }
    forall u | 0 <= u < |st.phases| ensures PhaseOk(after, after.phases[u]) {
      assert PhaseOk(st, st.phases[u]);
      assert u != t && HeldBy(st.phases[u]).Some? ==> HeldBy(st.phases[u]) != HeldBy(phase);
    }
    forall a | a in after.live ensures Published(after, a) || Held(after, a) {
      if Held(st, a) {
        var u :| 0 <= u < |st.phases| && HeldBy(st.phases[u]) == Some(a);
        assert u != t && HeldBy(after.phases[u]) == Some(a);
      }
    }
    ReturnKeeps(st, after, Return(phase.s, phase.max, Some(phase.winner)));
    assert after.live.Keys == st.live.Keys - {phase.leaked};
  }

  lemma {:induction false} LoseKeeps(st: State, a: Action)
    requires Inv(st) && Enabled(st, a) && (a.TryInsert? || a.FindWinner?) && st.phases[a.thread].s in st.published
    ensures Inv(Step(st, a))
  {
    var t, phase, after := a.thread, st.phases[a.thread], Step(st, a);
    assert PhaseOk(st, phase);
    assert st.published[phase.s] != phase.leaked by { assert Published(st, st.published[phase.s]); }
    MoveKeeps(st, after, t, after.phases[t]);
    NoReturnKeeps(st, after);
  }

  lemma {:induction false} LookupKeeps(st: State, a: Action)
    requires Inv(st) && Enabled(st, a) && (a.Intern? || a.Lookup? || a.Check? || a.LookupWhenFull?)
    ensures Inv(Step(st, a))
  {
    var t, phase, after := a.thread, st.phases[a.thread], Step(st, a);
    assert PhaseOk(st, phase);
    MoveKeeps(st, after, t, after.phases[t]);
    match a
    case Intern(_, s, max) =>
      if s in st.published { ReturnKeeps(st, after, Return(s, max, Some(st.published[s]))); }
      else { NoReturnKeeps(st, after); }
    case Check(_) => NoReturnKeeps(st, after);
    case Lookup(_, s) => ReturnKeeps(st, after, Return(s, 0, ValueAt(st.published, s)));
    case LookupWhenFull(_) => ReturnKeeps(st, after, Return(phase.s, phase.max, ValueAt(st.published, phase.s)));
  }

  lemma {:induction false} StepKeeps(st: State, a: Action)
    requires Inv(st) && Enabled(st, a)
    ensures Inv(Step(st, a)) && Grows(st.published, Step(st, a).published)
  {
    assert PhaseOk(st, st.phases[a.thread]);
    match a
    case Allocate(t, addr) => AllocateKeeps(st, t, addr);
    case Free(t) => FreeKeeps(st, t);
    case TryInsert(t) => if st.phases[t].s !in st.published { PublishKeeps(st, t); } else { LoseKeeps(st, a); }
    case FindWinner(_) => LoseKeeps(st, a);
    case _ => LookupKeeps(st, a);
  }

  lemma {:induction false} InitialInv(n: nat)
    ensures Inv(Initial(n))
  {
  }

  lemma {:induction false} RunKeeps(st: State, actions: seq<Action>)
    requires Inv(st) && Runs(st, actions)
    ensures Inv(Run(st, actions)) && Grows(st.published, Run(st, actions).published)
    decreases |actions|
  {
    if actions == [] {
    } else {
      StepKeeps(st, actions[0]);
      RunKeeps(Step(st, actions[0]), actions[1..]);
    }
  }

  // ---- What every run guarantees ----

  /** In every run of any number of threads, every answer for a string is one and the same slice, it
      still holds that string, and once a string has resolved no later call fails to resolve it. */
  lemma {:induction false} Canonical(n: nat, actions: seq<Action>)
    requires Runs(Initial(n), actions)
    ensures
      var st := Run(Initial(n), actions);
      && (forall i :: 0 <= i < |st.returned| && st.returned[i].result.Some? ==>
            var slice := st.returned[i].result.value;
            slice in st.live && st.live[slice] == st.returned[i].s)
      && Consistent(st.returned)
  {
    InitialInv(n);
    RunKeeps(Initial(n), actions);
  }

  /** A call is refused only when the map holds at least as many strings as the call's bound. */
  lemma {:induction false} RefusedOnlyWhenFull(n: nat, actions: seq<Action>)
    requires Runs(Initial(n), actions)
    ensures
      var st := Run(Initial(n), actions);
      forall i :: 0 <= i < |st.returned| && st.returned[i].result.None? ==> |st.published| >= st.returned[i].max
  {
    InitialInv(n);
    RunKeeps(Initial(n), actions);
  }

  /** Every live allocation is a published key or held by exactly one thread, never both; freed ones
      are gone; and the books balance. */
  lemma {:induction false} AllocationsConserved(n: nat, actions: seq<Action>)
    requires Runs(Initial(n), actions)
    ensures
      var st := Run(Initial(n), actions);
      && st.allocations == |st.live| + st.frees
      && (forall a :: a in st.live <==> Published(st, a) || Held(st, a))
      && (forall a :: !(Published(st, a) && Held(st, a)))
      && (forall t, u | 0 <= t < u < |st.phases| ::
            HeldBy(st.phases[t]).Some? ==> HeldBy(st.phases[t]) != HeldBy(st.phases[u]))
  {
    InitialInv(n);
    RunKeeps(Initial(n), actions);
    var st := Run(Initial(n), actions);
    forall a | Held(st, a) ensures a in st.live && !Published(st, a) {
      var t :| 0 <= t < |st.phases| && HeldBy(st.phases[t]) == Some(a);
      assert PhaseOk(st, st.phases[t]);
    }
  }

  /** No leak: when every thread is idle, memory holds the map's keys and nothing else. */
  lemma {:induction false} NoLeaks(n: nat, actions: seq<Action>)
    requires Runs(Initial(n), actions)
    requires forall t :: 0 <= t < |Run(Initial(n), actions).phases| ==> Run(Initial(n), actions).phases[t].Idle?
    ensures
      var st := Run(Initial(n), actions);
      && st.live.Keys == st.published.Values
      && st.allocations == |st.published| + st.frees
  {
    AllocationsConserved(n, actions);
    InitialInv(n);
    RunKeeps(Initial(n), actions);
    var st := Run(Initial(n), actions);
    forall a ensures a in st.live <==> a in st.published.Values {
      assert !Held(st, a);
    }
    InjectiveSize(st.published, st.live);
  }

  /** As many keys as values when values tell their keys. */
  lemma {:induction false} InjectiveSize(published: map<string, Addr>, live: map<Addr, string>)
    requires forall s :: s in published ==> published[s] in live && live[published[s]] == s
    ensures |published.Values| == |published|
    decreases |published|
  {
    if |published| != 0 {
      var s :| s in published;
      var rest := published - {s};
      InjectiveSize(rest, live);
      forall v ensures v in published.Values <==> v in rest.Values || v == published[s] {
        if v in published.Values {
          var k :| k in published && published[k] == v;
          if k != s { assert k in rest && rest[k] == v; }
        }
      }
      assert published.Values == rest.Values + {published[s]};
      assert published.Keys == rest.Keys + {s};
    } else {
      assert published == map[];
    }
  }

  lemma {:induction false} RunWidth(st: State, actions: seq<Action>)
    requires Runs(st, actions)
    ensures |Run(st, actions).phases| == |st.phases|
    decreases |actions|
  {
    if actions == [] {
    } else {
      RunWidth(Step(st, actions[0]), actions[1..]);
    }
  }

  // ---- The soft bound ----

  predicate PastCheck(phase: Phase) {
    phase.Passed? || phase.Holding?
  }

  /** Threads that have passed the length check and not yet tried to insert. */
  function Past(phases: seq<Phase>): nat {
    if phases == [] then 0 else (if PastCheck(phases[0]) then 1 else 0) + Past(phases[1..])
  }

  lemma {:induction false} PastUpdate(phases: seq<Phase>, t: nat, phase: Phase)
    requires t < |phases|
    ensures Past(phases[t := phase])
         == Past(phases) - (if PastCheck(phases[t]) then 1 else 0) + (if PastCheck(phase) then 1 else 0)
    ensures Past(phases) <= |phases|
    decreases t
  {
    PastBounded(phases);
    var updated := phases[t := phase];
    if t == 0 {
      assert updated[1..] == phases[1..];
    } else {
      assert updated[1..] == phases[1..][t - 1 := phase];
      PastUpdate(phases[1..], t - 1, phase);
    }
  }

  lemma {:induction false} PastBounded(phases: seq<Phase>)
    ensures Past(phases) <= |phases|
  {
    if phases == [] {
    } else {
      PastBounded(phases[1..]);
    }
  }

  /** All bounds in force are at most `max`. */
  ghost predicate BoundedBy(st: State, max: nat) {
    && (forall t :: 0 <= t < |st.phases| ==> (!st.phases[t].Idle? ==> st.phases[t].max <= max))
    && (if max == 0 then |st.published| == 0 && Past(st.phases) == 0
        else |st.published| + Past(st.phases) <= max - 1 + |st.phases|)
  }

  ghost predicate CallsBoundedBy(actions: seq<Action>, max: nat) {
    forall i :: 0 <= i < |actions| ==> (actions[i].Intern? ==> actions[i].max <= max)
  }

  lemma {:induction false} InsertBounded(st: State, t: nat, max: nat)
    requires Enabled(st, TryInsert(t)) && BoundedBy(st, max)
    ensures BoundedBy(Step(st, TryInsert(t)), max)
  {
    var phase, after := st.phases[t], Step(st, TryInsert(t));
    PastUpdate(st.phases, t, after.phases[t]);
    assert after.phases == st.phases[t := after.phases[t]];
    if phase.s !in st.published { assert |after.published| == |st.published| + 1; }
  }

  /** Passing the check below the bound is the only move that can bring the map closer to it. */
  lemma {:induction false} MoveBounded(st: State, after: State, t: nat, phase: Phase, max: nat)
    requires BoundedBy(st, max) && t < |st.phases|
    requires after.published == st.published && after.phases == st.phases[t := phase]
    requires !phase.Idle? ==> phase.max <= max
    requires PastCheck(phase) && !PastCheck(st.phases[t]) ==> |st.published| < max
    ensures BoundedBy(after, max)
  {
    PastUpdate(st.phases, t, phase);
    PastBounded(after.phases);
  }

  lemma {:induction false} StepBounded(st: State, a: Action, max: nat)
    requires Enabled(st, a) && BoundedBy(st, max) && (a.Intern? ==> a.max <= max)
    ensures BoundedBy(Step(st, a), max)
  {
    if a.TryInsert? {
      InsertBounded(st, a.thread, max);
    } else {
      var t, after := a.thread, Step(st, a);
      assert !st.phases[t].Idle? ==> st.phases[t].max <= max;
      MoveBounded(st, after, t, after.phases[t], max);
    }
  }

  lemma {:induction false} RunBounded(st: State, actions: seq<Action>, max: nat)
    requires Runs(st, actions) && BoundedBy(st, max) && CallsBoundedBy(actions, max)
    ensures BoundedBy(Run(st, actions), max)
    decreases |actions|
  {
    if actions == [] {
    } else {
      StepBounded(st, actions[0], max);
      RunBounded(Step(st, actions[0]), actions[1..], max);
    }
  }

  lemma {:induction false} NobodyPast(phases: seq<Phase>)
    requires forall t :: 0 <= t < |phases| ==> phases[t].Idle?
    ensures Past(phases) == 0
  {
    if phases == [] {
    } else {
      NobodyPast(phases[1..]);
    }
  }

  /** With calls bounded by `max`, `N` threads overshoot by at most one entry each but the last, and
      a bound of zero admits nothing. */
  lemma {:induction false} SoftBound(n: nat, actions: seq<Action>, max: nat)
    requires Runs(Initial(n), actions) && CallsBoundedBy(actions, max)
    ensures |Run(Initial(n), actions).published| <= if max == 0 then 0 else max + n - 1
  {
    NobodyPast(Initial(n).phases);
    RunBounded(Initial(n), actions, max);
    RunWidth(Initial(n), actions);
  }
}
