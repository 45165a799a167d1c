/** The soft bound of the interner is tight: `N` threads can all pass the length check before any of
them publishes. */
module InternerBound {
  import opened Common
  import opened Interner

  /** A different string for every number. */
  function Name(i: nat): string {
    seq(i, _ => 'a')
  }

  /** Threads below `done` have published, those up to `passed` are past the check, the rest have
      not begun, and the map holds `base + done` names. */
  ghost predicate Lined(st: State, base: nat, done: nat, passed: nat, max: nat) {
    && done <= passed <= |st.phases|
    && (forall t :: 0 <= t < |st.phases| ==>
          st.phases[t] == if done <= t < passed then Passed(Name(base + t), max) else Idle)
    && |st.published| == base + done
    && (forall s :: s in st.published ==> |s| < base + done)
  }

  /** A run from one state to another, every call bounded by `max`. */
  ghost predicate Leads(st: State, actions: seq<Action>, after: State, max: nat) {
    Runs(st, actions) && Run(st, actions) == after && CallsBoundedBy(actions, max)
  }

  lemma {:induction false} Chain(st: State, first: seq<Action>, mid: State, second: seq<Action>, after: State, max: nat)
    requires Leads(st, first, mid, max) && Leads(mid, second, after, max)
    ensures Leads(st, first + second, after, max)
    decreases |first|
  {
    var all := first + second;
    if first == [] {
      assert all == second;
    } else {
      assert all[0] == first[0] && all[1..] == first[1..] + second;
      Chain(Step(st, first[0]), first[1..], mid, second, after, max);
    }
  }

  lemma {:induction false} OneStep(st: State, a: Action, max: nat)
    requires Enabled(st, a) && (a.Intern? ==> a.max <= max)
    ensures Leads(st, [a], Step(st, a), max)
  {
    assert [a][1..] == [] && Runs(Step(st, a), []) && Run(Step(st, a), []) == Step(st, a);
  }

  lemma {:induction false} TwoSteps(st: State, a: Action, b: Action, max: nat)
    requires Enabled(st, a) && Enabled(Step(st, a), b)
    requires (a.Intern? ==> a.max <= max) && (b.Intern? ==> b.max <= max)
    ensures Leads(st, [a, b], Step(Step(st, a), b), max)
  {
    OneStep(st, a, max);
    OneStep(Step(st, a), b, max);
    Chain(st, [a], Step(st, a), [b], Step(Step(st, a), b), max);
    assert [a] + [b] == [a, b];
  }

  lemma {:induction false} PassOne(st: State, base: nat, t: nat, max: nat) returns (actions: seq<Action>, after: State)
    requires Lined(st, base, 0, t, max) && t < |st.phases| && base < max
    ensures Leads(st, actions, after, max) && Lined(after, base, 0, t + 1, max) && |after.phases| == |st.phases|
  {
    var call, check := Intern(t, Name(base + t), max), Check(t);
    assert Name(base + t) !in st.published;
    actions, after := [call, check], Step(Step(st, call), check);
    TwoSteps(st, call, check, max);
  }

  lemma {:induction false} PublishOne(st: State, base: nat, done: nat, passed: nat, max: nat)
    returns (actions: seq<Action>, after: State)
    requires Lined(st, base, done, passed, max) && done < passed
    ensures Leads(st, actions, after, max) && Lined(after, base, done + 1, passed, max) && |after.phases| == |st.phases|
  {
    var addr, s := Above(st.live.Keys), Name(base + done);
    var allocate, insert := Allocate(done, addr), TryInsert(done);
    assert s !in st.published;
    actions, after := [allocate, insert], Step(Step(st, allocate), insert);
    TwoSteps(st, allocate, insert, max);
    assert after.published == st.published[s := addr];
  }

  lemma {:induction false} PassAll(st: State, base: nat, t: nat, max: nat) returns (actions: seq<Action>, after: State)
    requires Lined(st, base, 0, t, max) && base < max
    ensures Leads(st, actions, after, max) && Lined(after, base, 0, |st.phases|, max) && |after.phases| == |st.phases|
    decreases |st.phases| - t
  {
    if t == |st.phases| {
      actions, after := [], st;
    } else {
      var first, mid := PassOne(st, base, t, max);
      var second;
      second, after := PassAll(mid, base, t + 1, max);
      actions := first + second;
      Chain(st, first, mid, second, after, max);
    }
  }

  lemma {:induction false} PublishAll(st: State, base: nat, done: nat, max: nat)
    returns (actions: seq<Action>, after: State)
    requires Lined(st, base, done, |st.phases|, max)
    ensures Leads(st, actions, after, max) && |after.published| == base + |st.phases|
    decreases |st.phases| - done
  {
    if done == |st.phases| {
      actions, after := [], st;
    } else {
      var first, mid := PublishOne(st, base, done, |st.phases|, max);
      var second;
      second, after := PublishAll(mid, base, done + 1, max);
      actions := first + second;
      Chain(st, first, mid, second, after, max);
    }
  }

  /** One thread fills the map up to any size below its bound. */
  lemma {:induction false} Fill(n: nat, size: nat, max: nat) returns (actions: seq<Action>, after: State)
    requires n > 0 && size < max
    ensures Leads(Initial(n), actions, after, max) && Lined(after, size, 0, 0, max) && |after.phases| == n
    decreases size
  {
    if size == 0 {
      actions, after := [], Initial(n);
    } else {
      var before, st := Fill(n, size - 1, max);
      var pass, mid := PassOne(st, size - 1, 0, max);
      var publish;
      publish, after := PublishOne(mid, size - 1, 0, 1, max);
      Chain(st, pass, mid, publish, after, max);
      actions := before + (pass + publish);
      Chain(Initial(n), before, st, pass + publish, after, max);
    }
  }

  /** Whatever the number of threads and the bound, some run ends with all but one thread's entry over it. */
  lemma {:induction false} SoftBoundIsReached(n: nat, max: nat)
    requires n > 0 && max > 0
    ensures exists actions :: Runs(Initial(n), actions) && CallsBoundedBy(actions, max)
                              && |Run(Initial(n), actions).published| == max + n - 1
  {
    var first, filled := Fill(n, max - 1, max);
    var second, lined := PassAll(filled, max - 1, 0, max);
    var third, after := PublishAll(lined, max - 1, 0, max);
    Chain(filled, second, lined, third, after, max);
    Chain(Initial(n), first, filled, second + third, after, max);
    assert Leads(Initial(n), first + (second + third), after, max);
  }
}
