/** `intern_bounded` and `insert_slow` statement by statement, with other threads stepping in between.

`Interfere` stands for whatever the other threads of module `Interner` may do between two of the
caller's atomic statements; `OthersOnlyGrow` shows that they stay within its contract. */
module InternCalls {
  import opened Common
  import opened Interner

  class SharedInterner {
    var published: map<string, Addr>
    var live: map<Addr, string>

    /** Allocations the calling thread has made and neither published nor freed. */
    ghost var mine: set<Addr>

    ghost predicate Valid()
      reads this
    {
      && (forall s :: s in published ==> published[s] in live && live[published[s]] == s && published[s] !in mine)
      && (forall a :: a in mine ==> a in live)
    }

    method Interfere()
      requires Valid()
      modifies this
      ensures Valid() && mine == old(mine) && Grows(old(published), published)
      ensures forall a :: a in mine ==> live[a] == old(live[a])
    {
    }

    /** An address that is not live, which may be one that was freed. */
    method Allocate(s: string) returns (leaked: Addr)
      requires Valid()
      modifies this`live, this`mine
      ensures Valid() && leaked !in old(live) && live == old(live)[leaked := s] && mine == old(mine) + {leaked}
    {
      FreeAddressExists(live.Keys);
      leaked :| leaked !in live;
      live, mine := live[leaked := s], mine + {leaked};
    }

    /** A resolved call ends with the canonical slice of its string, a refused one with the string
        unpublished and the map full, and no call leaves an allocation behind. */
    method InternBounded(s: string, max: nat) returns (r: Option<Addr>)
      requires Valid()
      modifies this
      ensures Valid() && mine == old(mine) && Grows(old(published), published)
      ensures r == ValueAt(published, s) && (r.Some? ==> live[r.value] == s)
      ensures r.None? ==> |published| >= max
    {
      if s in published { return Some(published[s]); }
      Interfere();
      r := InsertSlow(s, max);
    }

    /** Puts an allocation into the map or, when another thread was first, frees it. */
    method Publish(s: string, leaked: Addr) returns (winner: Addr)
      requires Valid() && leaked in mine && live[leaked] == s
      modifies this
      ensures Valid() && mine == old(mine) - {leaked} && Grows(old(published), published)
      ensures s in published && winner == published[s]
    {
      if s !in published {
        published, mine := published[s := leaked], mine - {leaked};
        return leaked;
      }
      Interfere();
      winner := ValueAt(published, s).GetOr(leaked);
      if winner != leaked {
        Interfere();
        live, mine := live - {leaked}, mine - {leaked};
      }
    }

    method InsertSlow(s: string, max: nat) returns (r: Option<Addr>)
      requires Valid()
      modifies this
      ensures Valid() && mine == old(mine) && Grows(old(published), published)
      ensures r == ValueAt(published, s) && (r.Some? ==> live[r.value] == s)
      ensures r.None? ==> |published| >= max
    {
      if |published| >= max {
        ghost var size := published;
        Interfere();
        GrowthCounts(size, published);
        return ValueAt(published, s);
      }
      Interfere();
      var leaked := Allocate(s);
      Interfere();
      var winner := Publish(s, leaked);
      return Some(winner);
    }
  }

  lemma {:induction false} FreeAddressExists(live: set<Addr>)
    ensures exists a: Addr :: a !in live
  {
    var bound := Above(live);
    assert bound !in live;
  }

  /** Steps of other threads only grow the map and leave alone what a thread holds. */
  lemma {:induction false} OthersOnlyGrow(st: State, a: Action, t: nat)
    requires Inv(st) && Enabled(st, a) && t < |st.phases| && a.thread != t
    ensures KeysOk(Step(st, a)) && Grows(st.published, Step(st, a).published)
    ensures |Step(st, a).phases| == |st.phases| && Step(st, a).phases[t] == st.phases[t]
    ensures HeldBy(st.phases[t]).Some? ==> Untouched(st, Step(st, a), HeldBy(st.phases[t]).value)
  {
    StepKeeps(st, a);
    OwnPhaseKept(st, a, t);
    PhasePromises(st, t);
    PhasePromises(Step(st, a), t);
  }

  lemma {:induction false} OwnPhaseKept(st: State, a: Action, t: nat)
    requires Enabled(st, a) && t < |st.phases| && a.thread != t
    ensures |Step(st, a).phases| == |st.phases| && Step(st, a).phases[t] == st.phases[t]
  {
  }

  lemma {:induction false} PhasePromises(st: State, t: nat)
    requires Inv(st) && t < |st.phases|
    ensures HeldBy(st.phases[t]).Some? ==>
      var held := HeldBy(st.phases[t]).value;
      held in st.live && st.live[held] == st.phases[t].s && !Published(st, held)
  {
    assert PhaseOk(st, st.phases[t]);
  }

  /** A string one thread holds is live with the same text, and not published behind its back. */
  ghost predicate Untouched(st: State, after: State, held: Addr) {
    && held in st.live && held in after.live && after.live[held] == st.live[held]
    && !Published(after, held)
  }
}
