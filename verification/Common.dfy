/** What several models share. */
module Common {

  datatype Option<+T> = None | Some(value: T) {
    function GetOr(default: T): T {
      if Some? then value else default
    }
  }

  datatype Result<+T, +E> = Ok(value: T) | Err(error: E)

  function ValueAt<K, V>(m: map<K, V>, key: K): Option<V> {
    if key in m then Some(m[key]) else None
  }

  type ThreadId = nat

  type Addr = nat

  /** A finite memory never holds every address. */
  ghost function Above(live: set<Addr>): (bound: Addr)
    ensures forall x :: x in live ==> x < bound
  {
    if live == {} then 0
    else
      var x :| x in live;
      var rest := Above(live - {x});
      assert live == (live - {x}) + {x};
      if x < rest then rest else x + 1
  }

  /** An operation and the thread that called it. */
  datatype Issued<+T> = Issued(thread: ThreadId, op: T)

  /** One thread's operations, in order. */
  function Of<T>(t: ThreadId, calls: seq<Issued<T>>): seq<T> {
    if calls == [] then []
    else
      var last := calls[|calls| - 1];
      Of(t, calls[..|calls| - 1]) + if last.thread == t then [last.op] else []
  }

  lemma {:induction false} OfAppend<T>(t: ThreadId, calls: seq<Issued<T>>, call: Issued<T>)
    ensures Of(t, calls + [call]) == if call.thread == t then Of(t, calls) + [call.op] else Of(t, calls)
  {
    assert (calls + [call])[..|calls|] == calls;
    assert Of(t, calls) + [] == Of(t, calls);
  }
}
