/** The compare-exchange loop of `saturating_sub`, with any number of threads on one counter.

A thread reads the counter once and then retries: an exchange that succeeds commits, one that
fails, because the counter moved or for no reason at all, reloads. Additions are one step. */
module CasLoop {
  import opened Common
  import opened Counters

  datatype Op = AddOp(value: nat) | SubOp(value: nat)

  datatype Phase = Idle | Retrying(value: nat, current: nat)

  /** `log` lists the operations in the order they took effect, `asked` in the order they began. */
  datatype Machine = Machine(counter: nat, phases: map<ThreadId, Phase>, log: seq<Issued<Op>>, asked: seq<Issued<Op>>)

  datatype Action =
    | Begin(thread: ThreadId, value: nat)
    | Exchange(thread: ThreadId, spurious: bool)
    | FetchAdd(thread: ThreadId, value: nat)

  function PhaseOf(m: Machine, t: ThreadId): Phase {
    if t in m.phases then m.phases[t] else Idle
  }

  function Initial(counter: nat): Machine {
    Machine(counter, map[], [], [])
  }

  /** An action its thread is not ready for changes nothing. */
  function Act(m: Machine, a: Action): Machine {
    var phase := PhaseOf(m, a.thread);
    match a
    case Begin(t, v) =>
      if phase != Idle then m
      else m.(phases := m.phases[t := Retrying(v, m.counter)], asked := m.asked + [Issued(t, SubOp(v))])
    case FetchAdd(t, v) =>
      if phase != Idle then m
      else
        var request := Issued(t, AddOp(v));
        m.(counter := WrappingAdd(m.counter, v), log := m.log + [request], asked := m.asked + [request])
    case Exchange(t, spurious) =>
      if phase == Idle then m
      else if spurious || phase.current != m.counter then
        m.(phases := m.phases[t := phase.(current := m.counter)])
      else
        m.(counter := SaturatingSub(phase.current, phase.value), phases := m.phases[t := Idle],
           log := m.log + [Issued(t, SubOp(phase.value))])
  }

  function Run(m: Machine, actions: seq<Action>): Machine
    decreases |actions|
  {
    if actions == [] then m else Act(Run(m, actions[..|actions| - 1]), actions[|actions| - 1])
  }

  function Applied(counter: nat, op: Op): nat {
    match op
    case AddOp(v) => WrappingAdd(counter, v)
    case SubOp(v) => SaturatingSub(counter, v)
  }

  /** The counter if the logged operations had run one after the other. */
  function Serial(counter: nat, log: seq<Issued<Op>>): nat {
    if log == [] then counter else Applied(Serial(counter, log[..|log| - 1]), log[|log| - 1].op)
  }

  lemma {:induction false} SerialAppend(counter: nat, log: seq<Issued<Op>>, r: Issued<Op>)
    ensures Serial(counter, log + [r]) == Applied(Serial(counter, log), r.op)
  {
    assert (log + [r])[..|log|] == log;
  }

  function Pending(p: Phase): seq<Op> {
    if p.Retrying? then [SubOp(p.value)] else []
  }

  predicate Good(counter: nat, m: Machine, t: ThreadId) {
    && m.counter == Serial(counter, m.log)
    && Of(t, m.asked) == Of(t, m.log) + Pending(PhaseOf(m, t))
  }

  lemma {:induction false} AddKeepsGood(counter: nat, m: Machine, u: ThreadId, v: nat, t: ThreadId)
    requires Good(counter, m, t)
    ensures Good(counter, Act(m, FetchAdd(u, v)), t)
  {
    if PhaseOf(m, u) == Idle {
      OfAppend(t, m.asked, Issued(u, AddOp(v)));
      OfAppend(t, m.log, Issued(u, AddOp(v)));
      SerialAppend(counter, m.log, Issued(u, AddOp(v)));
      if u == t { assert Pending(PhaseOf(m, t)) == []; }
      var done, more, pending := Of(t, m.log), if u == t then [AddOp(v)] else [], Pending(PhaseOf(m, t));
      assert done + pending + more == done + more + pending;
    }
  }

  lemma {:induction false} BeginKeepsGood(counter: nat, m: Machine, u: ThreadId, v: nat, t: ThreadId)
    requires Good(counter, m, t)
    ensures Good(counter, Act(m, Begin(u, v)), t)
  {
    OfAppend(t, m.asked, Issued(u, SubOp(v)));
  }

  /** A failed exchange reads the counter again and nothing else. */
  lemma {:induction false} ReloadKeepsGood(counter: nat, m: Machine, u: ThreadId, spurious: bool, t: ThreadId)
    requires Good(counter, m, t) && PhaseOf(m, u).Retrying? && (spurious || PhaseOf(m, u).current != m.counter)
    ensures Good(counter, Act(m, Exchange(u, spurious)), t)
  {
    var after := Act(m, Exchange(u, spurious));
    assert after.log == m.log && after.asked == m.asked && after.counter == m.counter;
    assert Pending(PhaseOf(after, t)) == Pending(PhaseOf(m, t));
  }

  /** A successful one commits the thread's subtraction. */
  lemma {:induction false} CommitKeepsGood(counter: nat, m: Machine, u: ThreadId, t: ThreadId)
    requires Good(counter, m, t) && PhaseOf(m, u).Retrying? && PhaseOf(m, u).current == m.counter
    ensures Good(counter, Act(m, Exchange(u, false)), t)
  {
    var after, call := Act(m, Exchange(u, false)), Issued(u, SubOp(PhaseOf(m, u).value));
    assert after.log == m.log + [call] && after.asked == m.asked;
    OfAppend(t, m.log, call);
    SerialAppend(counter, m.log, call);
    if u == t {
      assert Pending(PhaseOf(after, t)) == [] && Pending(PhaseOf(m, t)) == [call.op];
      assert Of(t, after.log) + [] == Of(t, after.log);
    } else {
      assert PhaseOf(after, t) == PhaseOf(m, t);
    }
  }

  lemma {:induction false} ExchangeKeepsGood(counter: nat, m: Machine, u: ThreadId, spurious: bool, t: ThreadId)
    requires Good(counter, m, t)
    ensures Good(counter, Act(m, Exchange(u, spurious)), t)
  {
    if PhaseOf(m, u).Retrying? {
      if spurious || PhaseOf(m, u).current != m.counter {
        ReloadKeepsGood(counter, m, u, spurious, t);
      } else {
        CommitKeepsGood(counter, m, u, t);
      }
    }
  }

  lemma {:induction false} ActKeepsGood(counter: nat, m: Machine, a: Action, t: ThreadId)
    requires Good(counter, m, t)
    ensures Good(counter, Act(m, a), t)
  {
    match a
    case Begin(u, v) => BeginKeepsGood(counter, m, u, v, t);
    case FetchAdd(u, v) => AddKeepsGood(counter, m, u, v, t);
    case Exchange(u, spurious) => ExchangeKeepsGood(counter, m, u, spurious, t);
  }

  /** In every run the counter is what its committed operations give when run one at a time, and
      each thread's operations have committed exactly once, in its own order, save the one it is
      still retrying. */
  lemma {:induction false} ExactlyOnce(counter: nat, actions: seq<Action>, t: ThreadId)
    ensures
      var m := Run(Initial(counter), actions);
      && m.counter == Serial(counter, m.log)
      && Of(t, m.asked) == Of(t, m.log) + Pending(PhaseOf(m, t))
    decreases |actions|
  {
    if actions == [] {
    } else {
      ExactlyOnce(counter, actions[..|actions| - 1], t);
      ActKeepsGood(counter, Run(Initial(counter), actions[..|actions| - 1]), actions[|actions| - 1], t);
    }
  }
}
