/** Handing out processor cores to runtimes, `arion-proxy/src/core_affinity.rs` and `proxy.rs`.

Cores are grouped by NUMA node; runtime `r` goes to node `r mod n` and gets the window number
`r div n` of that node. */
module CoreAffinity {
  import opened Common

  type Core = nat

  /** Why no cores were handed out. */
  datatype Failure = NoCpuInfo | UnmappedCore(core: Core) | NotAvailable | NoNodes | NotEnoughCores

  predicate Unique(s: seq<nat>) {
    forall i, j :: 0 <= i < j < |s| ==> s[i] != s[j]
  }

  predicate Increasing(s: seq<nat>) {
    forall i, j :: 0 <= i < j < |s| ==> s[i] < s[j]
  }

  ghost predicate Apart(a: seq<nat>, b: seq<nat>) {
    forall i, j :: 0 <= i < |a| && 0 <= j < |b| ==> a[i] != b[j]
  }

  /** No core twice in a node, and no core in two nodes. */
  ghost predicate WellGrouped(nodes: seq<seq<Core>>) {
    && (forall i :: 0 <= i < |nodes| ==> Unique(nodes[i]))
    && (forall i, j :: 0 <= i < j < |nodes| ==> Apart(nodes[i], nodes[j]))
  }

  // ---- Grouping ----

  /** The processor list zipped with the physical ids, a later pair winning. */
  function ProcessorMap(processors: seq<nat>, ids: seq<nat>): map<nat, nat> {
    if processors == [] || ids == [] then map[]
    else map[processors[0] := ids[0]] + ProcessorMap(processors[1..], ids[1..])
  }

  function CoresOn(cores: seq<Core>, nodeOf: map<nat, nat>, node: nat): seq<Core> {
    if cores == [] then []
    else
      var last := cores[|cores| - 1];
      CoresOn(cores[..|cores| - 1], nodeOf, node) + if last in nodeOf && nodeOf[last] == node then [last] else []
  }

  ghost predicate AllMapped(cores: seq<Core>, nodeOf: map<nat, nat>) {
    forall i :: 0 <= i < |cores| ==> cores[i] in nodeOf
  }

  ghost predicate Listed(s: set<nat>, ids: seq<nat>) {
    Increasing(ids) && forall x :: x in s <==> x in ids
  }

  lemma {:induction false} Smallest(s: set<nat>) returns (low: nat)
    requires s != {}
    ensures low in s && forall x :: x in s ==> low <= x
  {
    low :| low in s;
    var rest := s - {low};
    assert s == rest + {low};
    if rest == {} {
    } else {
      var other := Smallest(rest);
      if other < low { low := other; }
    }
  }

  /** `into_values` of a `BTreeMap`: the groups in the order of their keys. */
  method ValuesInOrder(groups: map<nat, seq<Core>>) returns (values: seq<seq<Core>>, keys: seq<nat>)
    ensures Listed(groups.Keys, keys) && |values| == |keys|
    ensures forall i :: 0 <= i < |keys| ==> keys[i] in groups && values[i] == groups[keys[i]]
  {
    values, keys := [], [];
    var rest := groups.Keys;
    while rest != {}
      invariant rest <= groups.Keys && |values| == |keys|
      invariant Listed(groups.Keys - rest, keys)
      invariant forall i :: 0 <= i < |keys| ==> keys[i] in groups && values[i] == groups[keys[i]]
      invariant forall i, x :: 0 <= i < |keys| && x in rest ==> keys[i] < x
    {
      var low := TakeSmallest(rest);
      ghost var before := keys;
      keys := keys + [low];
      values := values + [groups[low]];
      assert forall x :: x in keys <==> x in before || x == low;
      rest := rest - {low};
    }
    assert groups.Keys - rest == groups.Keys;
  }

  method TakeSmallest(s: set<nat>) returns (low: nat)
    requires s != {}
    ensures low in s && forall x :: x in s ==> low <= x
  {
    ghost var least := Smallest(s);
    low :| low in s && forall x :: x in s ==> low <= x;
  }

  /** Every core is put with the other cores of its node, in the order given; nodes come in the order of
      their ids, none empty. It fails exactly when there is no processor information or a core
      without a node. */
  method GroupByNuma(cores: seq<Core>, processors: seq<nat>, physicalIds: seq<nat>)
    returns (r: Result<seq<seq<Core>>, Failure>, ghost ids: seq<nat>)
    ensures r.Ok?
      <==> ProcessorMap(processors, physicalIds) != map[] && AllMapped(cores, ProcessorMap(processors, physicalIds))
    ensures r.Ok? ==>
      var nodeOf := ProcessorMap(processors, physicalIds);
      && |ids| == |r.value| && Listed(set c | c in cores && c in nodeOf :: nodeOf[c], ids)
      && forall i :: 0 <= i < |ids| ==> r.value[i] == CoresOn(cores, nodeOf, ids[i])
  {
    var nodeOf := ProcessorMap(processors, physicalIds);
    ids := [];
    if nodeOf == map[] { return Err(NoCpuInfo), []; }
    var groups: map<nat, seq<Core>> := map[];
    for i := 0 to |cores|
      invariant AllMapped(cores[..i], nodeOf) && Grouped(groups, cores[..i], nodeOf)
    {
      var core := cores[i];
      assert cores[..i + 1] == cores[..i] + [core];
      if core !in nodeOf { return Err(UnmappedCore(core)), []; }
      GroupedStep(groups, cores[..i], nodeOf, core);
      groups := Pushed(groups, nodeOf[core], core);
    }
    assert cores[..|cores|] == cores;
    var values;
    values, ids := ValuesInOrder(groups);
    GroupedKeys(groups, cores, nodeOf);
    return Ok(values), ids;
  }

  /** `groups.entry(node).or_default().push(core)`. */
  function Pushed(groups: map<nat, seq<Core>>, node: nat, core: Core): map<nat, seq<Core>> {
    groups[node := (if node in groups then groups[node] else []) + [core]]
  }

  ghost predicate Grouped(groups: map<nat, seq<Core>>, cores: seq<Core>, nodeOf: map<nat, nat>) {
    forall n: nat ::
      if n in groups then groups[n] != [] && groups[n] == CoresOn(cores, nodeOf, n)
      else CoresOn(cores, nodeOf, n) == []
  }

  lemma {:induction false} GroupedStep(groups: map<nat, seq<Core>>, cores: seq<Core>, nodeOf: map<nat, nat>, core: Core)
    requires Grouped(groups, cores, nodeOf) && core in nodeOf
    ensures Grouped(Pushed(groups, nodeOf[core], core), cores + [core], nodeOf)
  {
    var more := cores + [core];
    assert more[..|cores|] == cores;
    forall n: nat
      ensures CoresOn(more, nodeOf, n) == CoresOn(cores, nodeOf, n) + if nodeOf[core] == n then [core] else []
    {}
  }

  lemma {:induction false} GroupedKeys(groups: map<nat, seq<Core>>, cores: seq<Core>, nodeOf: map<nat, nat>)
    requires Grouped(groups, cores, nodeOf)
    ensures groups.Keys == set c | c in cores && c in nodeOf :: nodeOf[c]
  {
    forall n: nat ensures n in groups <==> exists c :: c in cores && c in nodeOf && nodeOf[c] == n {
      CoresOnMembers(cores, nodeOf, n);
      if n in groups {
        var c := CoresOn(cores, nodeOf, n)[0];
        assert c in CoresOn(cores, nodeOf, n);
      }
    }
  }

  // ---- What grouping guarantees ----

  lemma {:induction false} CoresOnMembers(cores: seq<Core>, nodeOf: map<nat, nat>, node: nat)
    ensures forall c :: c in CoresOn(cores, nodeOf, node) <==> c in cores && c in nodeOf && nodeOf[c] == node
    ensures Unique(cores) ==> Unique(CoresOn(cores, nodeOf, node))
  {
    if cores == [] {
    } else {
      var rest, last := cores[..|cores| - 1], cores[|cores| - 1];
      CoresOnMembers(rest, nodeOf, node);
      assert cores == rest + [last];
      if Unique(cores) { assert last !in rest; }
    }
  }

  /** Groups of duplicate-free cores share nothing, and together hold every core. */
  lemma {:induction false} GroupsAreWellGrouped(cores: seq<Core>, nodeOf: map<nat, nat>, ids: seq<nat>,
                                                nodes: seq<seq<Core>>)
    requires Unique(cores) && AllMapped(cores, nodeOf) && |ids| == |nodes|
    requires Listed(set c | c in cores && c in nodeOf :: nodeOf[c], ids)
    requires forall i :: 0 <= i < |ids| ==> nodes[i] == CoresOn(cores, nodeOf, ids[i])
    ensures WellGrouped(nodes)
    ensures forall c :: c in cores <==> exists i :: 0 <= i < |nodes| && c in nodes[i]
  {
    forall i | 0 <= i < |ids|
      ensures Unique(nodes[i]) && forall c :: c in nodes[i] <==> c in cores && nodeOf[c] == ids[i]
    {
      CoresOnMembers(cores, nodeOf, ids[i]);
    }
    forall i, j | 0 <= i < j < |nodes| ensures Apart(nodes[i], nodes[j]) {
      forall x, y | 0 <= x < |nodes[i]| && 0 <= y < |nodes[j]| ensures nodes[i][x] != nodes[j][y] {
        assert nodes[i][x] in nodes[i] && nodes[j][y] in nodes[j];
      }
    }
    forall c | c in cores ensures exists i :: 0 <= i < |nodes| && c in nodes[i] {
      assert nodeOf[c] in (set d | d in cores && d in nodeOf :: nodeOf[d]);
      assert nodeOf[c] in ids;
      var i :| 0 <= i < |ids| && ids[i] == nodeOf[c];
      assert c in nodes[i];
    }
  }

  // ---- Handing out ----

  function CoreSet(nodes: seq<seq<Core>>): set<Core> {
    set i, c | 0 <= i < |nodes| && c in nodes[i] :: c
  }

  function Skip(s: seq<Core>, n: nat): seq<Core> {
    if n <= |s| then s[n..] else []
  }

  function Take(s: seq<Core>, n: nat): seq<Core> {
    if n <= |s| then s[..n] else s
  }

  /** `run_strategy`. */
  function RunStrategy(runtime: nat, wanted: nat, affinity: Option<seq<seq<Core>>>, available: seq<seq<Core>>)
    : Result<seq<Core>, Failure>
  {
    var nodes := affinity.GetOr(available);
    if !(CoreSet(nodes) <= CoreSet(available)) then Err(NotAvailable)
    else if |nodes| == 0 then Err(NoNodes)
    else
      var cores := Take(Skip(nodes[runtime % |nodes|], runtime / |nodes| * wanted), wanted);
      if |cores| == wanted then Ok(cores) else Err(NotEnoughCores)
  }

  lemma {:induction false} WindowFits(node: seq<Core>, start: nat, wanted: nat)
    requires wanted == 0 ==> start == 0
    ensures |Take(Skip(node, start), wanted)| == wanted <==> start + wanted <= |node|
    ensures start + wanted <= |node| ==> Take(Skip(node, start), wanted) == node[start..start + wanted]
  {
  }

  lemma {:induction false} OneMore(q: nat, wanted: nat)
    ensures (q + 1) * wanted == q * wanted + wanted && (wanted == 0 ==> q * wanted == 0)
  {
  }

  /** Runtime `r` is to have window `q` of node `k`. */
  ghost predicate Assigned(r: nat, n: nat, k: nat, q: nat) {
    n > 0 && k == r % n && q == r / n && k < n
  }

  lemma {:induction false} WindowGiven(r: nat, wanted: nat, affinity: Option<seq<seq<Core>>>, available: seq<seq<Core>>,
                                       k: nat, q: nat)
    requires
      var nodes := affinity.GetOr(available);
      CoreSet(nodes) <= CoreSet(available) && Assigned(r, |nodes|, k, q)
    ensures
      var node, result := affinity.GetOr(available)[k], RunStrategy(r, wanted, affinity, available);
      && (result.Ok? <==> (q + 1) * wanted <= |node|)
      && (result.Ok? ==> result.value == Window(node, q, wanted))
  {
    var node, start := affinity.GetOr(available)[k], q * wanted;
    OneMore(q, wanted);
    WindowFits(node, start, wanted);
    assert RunStrategy(r, wanted, affinity, available)
        == if |Take(Skip(node, start), wanted)| == wanted then Ok(Take(Skip(node, start), wanted))
           else Err(NotEnoughCores);
  }

  /** Runtime `r` succeeds exactly when its window fits its node and every named core is available, and
      then gets that window. */
  lemma {:induction false} SucceedsExactly(r: nat, wanted: nat, affinity: Option<seq<seq<Core>>>,
                                           available: seq<seq<Core>>)
    ensures
      var nodes, result := affinity.GetOr(available), RunStrategy(r, wanted, affinity, available);
      var n := |nodes|;
      && (result.Ok? <==> CoreSet(nodes) <= CoreSet(available) && n > 0 && (r / n + 1) * wanted <= |nodes[r % n]|)
      && (result.Ok? ==> result.value == Window(nodes[r % n], r / n, wanted))
  {
    var nodes := affinity.GetOr(available);
    if CoreSet(nodes) <= CoreSet(available) && |nodes| > 0 {
      WindowGiven(r, wanted, affinity, available, r % |nodes|, r / |nodes|);
    }
  }

  /** Two different runtimes never share a core when the nodes are well grouped. */
  lemma {:induction false} RuntimesAreDisjoint(a: nat, b: nat, wanted: nat, affinity: Option<seq<seq<Core>>>,
                                               available: seq<seq<Core>>)
    requires a < b && WellGrouped(affinity.GetOr(available))
    ensures
      var first, second := RunStrategy(a, wanted, affinity, available), RunStrategy(b, wanted, affinity, available);
      first.Ok? && second.Ok? ==> Apart(first.value, second.value)
  {
    var nodes := affinity.GetOr(available);
    if RunStrategy(a, wanted, affinity, available).Ok? && RunStrategy(b, wanted, affinity, available).Ok? {
      var i, p := Place(a, wanted, affinity, available);
      var j, q := Place(b, wanted, affinity, available);
      TurnsDiffer(a, b, |nodes|, i, p, j, q);
      WindowsApart(nodes, i, p, j, q, wanted);
    }
  }

  lemma {:induction false} Place(r: nat, wanted: nat, affinity: Option<seq<seq<Core>>>, available: seq<seq<Core>>)
    returns (k: nat, q: nat)
    requires RunStrategy(r, wanted, affinity, available).Ok?
    ensures
      var nodes := affinity.GetOr(available);
      && Assigned(r, |nodes|, k, q) && (q + 1) * wanted <= |nodes[k]|
      && RunStrategy(r, wanted, affinity, available).value == Window(nodes[k], q, wanted)
  {
    var n := |affinity.GetOr(available)|;
    k, q := r % n, r / n;
    WindowGiven(r, wanted, affinity, available, k, q);
  }

  /** Where a runtime's cores start: on the node of its number modulo the nodes, after the runtimes
      that were given the same node before it. */
  lemma {:induction false} TurnsDiffer(a: nat, b: nat, n: nat, i: nat, p: nat, j: nat, q: nat)
    requires a < b && Assigned(a, n, i, p) && Assigned(b, n, j, q)
    ensures i == j ==> p < q
  {
    if i == j { LaterWindow(a, b, n); }
  }

  /** Window number `q` of a node. */
  function Window(node: seq<Core>, q: nat, wanted: nat): seq<Core>
    requires (q + 1) * wanted <= |node|
  {
    assert (q + 1) * wanted == q * wanted + wanted;
    node[q * wanted..q * wanted + wanted]
  }

  lemma {:induction false} WindowsApart(nodes: seq<seq<Core>>, i: nat, p: nat, j: nat, q: nat, wanted: nat)
    requires WellGrouped(nodes) && i < |nodes| && j < |nodes| && (i == j ==> p < q)
    requires (p + 1) * wanted <= |nodes[i]| && (q + 1) * wanted <= |nodes[j]|
    ensures Apart(Window(nodes[i], p, wanted), Window(nodes[j], q, wanted))
  {
    if i == j {
      WindowsOfOneNode(nodes[i], p, q, wanted);
    } else {
      NodesApart(nodes, i, j);
      OneMore(p, wanted);
      OneMore(q, wanted);
      PiecesApart(nodes[i], p * wanted, nodes[j], q * wanted, wanted);
    }
  }

  lemma {:induction false} PiecesApart(a: seq<Core>, first: nat, b: seq<Core>, second: nat, wanted: nat)
    requires Apart(a, b) && first + wanted <= |a| && second + wanted <= |b|
    ensures Apart(a[first..first + wanted], b[second..second + wanted])
  {
  }

  lemma {:induction false} WindowsOfOneNode(node: seq<Core>, p: nat, q: nat, wanted: nat)
    requires Unique(node) && p < q && (p + 1) * wanted <= |node| && (q + 1) * wanted <= |node|
    ensures Apart(Window(node, p, wanted), Window(node, q, wanted))
  {
    MulMono(p + 1, q, wanted);
    OneMore(p, wanted);
    OneMore(q, wanted);
    ChunksApart(node, p * wanted, q * wanted, wanted);
  }

  lemma {:induction false} ChunksApart(node: seq<Core>, first: nat, second: nat, wanted: nat)
    requires Unique(node) && first + wanted <= second && second + wanted <= |node|
    ensures Apart(node[first..first + wanted], node[second..second + wanted])
  {
  }

  lemma {:induction false} NodesApart(nodes: seq<seq<Core>>, i: nat, j: nat)
    requires WellGrouped(nodes) && i < |nodes| && j < |nodes| && i != j
    ensures Apart(nodes[i], nodes[j])
  {
    if j < i { assert Apart(nodes[j], nodes[i]); }
  }

  lemma {:induction false} LaterWindow(a: nat, b: nat, n: nat)
    requires a < b && n > 0 && a % n == b % n
    ensures a / n < b / n
  {
    DivMod(a, n);
    DivMod(b, n);
    Scale(n, a / n, b / n);
  }

  lemma {:induction false} Scale(n: nat, a: nat, b: nat)
    requires n > 0
    ensures a < b <==> n * a < n * b
  {
    if a < b { MulMono(a + 1, b, n); } else { MulMono(b, a, n); }
  }

  lemma {:induction false} DivMod(r: nat, n: nat)
    requires n > 0
    ensures r == n * (r / n) + r % n
  {
  }

  // ---- Enough for everyone ----

  /** How many of the first `runtimes` runtimes go to node `k`. */
  function Share(runtimes: nat, n: nat, k: nat): nat
    requires k < n
  {
    (runtimes + n - 1 - k) / n
  }

  lemma {:induction false} InShare(r: nat, runtimes: nat, n: nat)
    requires r < runtimes && n > 0
    ensures r / n + 1 <= Share(runtimes, n, r % n)
  {
    var q, k := r / n, r % n;
    DivMod(r, n);
    assert n * (q + 1) == n * q + n;
    DivAtLeast(runtimes + n - 1 - k, n, q + 1);
  }

  lemma {:induction false} DivAtLeast(x: nat, n: nat, q: nat)
    requires n > 0 && n * q <= x
    ensures q <= x / n
  {
    DivMod(x, n);
    assert n * (x / n + 1) == n * (x / n) + n;
    Scale(n, q, x / n + 1);
  }

  /** The last runtime of a node's share. */
  lemma {:induction false} LastOfShare(runtimes: nat, n: nat, k: nat) returns (r: nat)
    requires k < n && Share(runtimes, n, k) > 0
    ensures r < runtimes && r % n == k && r / n + 1 == Share(runtimes, n, k)
  {
    var share := Share(runtimes, n, k);
    DivMod(runtimes + n - 1 - k, n);
    r := n * (share - 1) + k;
    assert n * share == n * (share - 1) + n;
    QuotientOf(r, n, share - 1, k);
  }

  lemma {:induction false} QuotientOf(r: nat, n: nat, q: nat, k: nat)
    requires k < n && r == n * q + k
    ensures r / n == q && r % n == k
  {
    DivMod(r, n);
    var d := r / n;
    assert n * (d + 1) == n * d + n && n * (q + 1) == n * q + n;
    Scale(n, d, q + 1);
    Scale(n, q, d + 1);
  }

  ghost predicate AllPlaced(runtimes: nat, wanted: nat, affinity: Option<seq<seq<Core>>>, available: seq<seq<Core>>) {
    forall r :: 0 <= r < runtimes ==> RunStrategy(r, wanted, affinity, available).Ok?
  }

  /** Every node has room for its share of the runtimes. */
  ghost predicate RoomForAll(runtimes: nat, wanted: nat, nodes: seq<seq<Core>>) {
    forall k :: 0 <= k < |nodes| ==> Share(runtimes, |nodes|, k) * wanted <= |nodes[k]|
  }

  lemma {:induction false} RoomSuffices(r: nat, runtimes: nat, wanted: nat, affinity: Option<seq<seq<Core>>>,
                                        available: seq<seq<Core>>)
    requires
      var nodes := affinity.GetOr(available);
      r < runtimes && nodes != [] && CoreSet(nodes) <= CoreSet(available) && RoomForAll(runtimes, wanted, nodes)
    ensures RunStrategy(r, wanted, affinity, available).Ok?
  {
    var nodes := affinity.GetOr(available);
    var n := |nodes|;
    var k, q := r % n, r / n;
    InShare(r, runtimes, n);
    MulMono(q + 1, Share(runtimes, n, k), wanted);
    WindowGiven(r, wanted, affinity, available, k, q);
  }

  lemma {:induction false} RoomIsNeeded(runtimes: nat, wanted: nat, affinity: Option<seq<seq<Core>>>,
                                        available: seq<seq<Core>>, k: nat)
    requires
      var nodes := affinity.GetOr(available);
      k < |nodes| && CoreSet(nodes) <= CoreSet(available) && AllPlaced(runtimes, wanted, affinity, available)
    ensures Share(runtimes, |affinity.GetOr(available)|, k) * wanted <= |affinity.GetOr(available)[k]|
  {
    var n := |affinity.GetOr(available)|;
    var share := Share(runtimes, n, k);
    if share > 0 {
      var r := LastOfShare(runtimes, n, k);
      WindowGiven(r, wanted, affinity, available, k, share - 1);
    } else {
      assert share * wanted == 0;
    }
  }

  /** All of the first `runtimes` runtimes get their cores, with a configured affinity or without, exactly
      when every named core is available and every node has room for its share of them. */
  lemma {:induction false} AllPlacedExactly(runtimes: nat, wanted: nat, affinity: Option<seq<seq<Core>>>,
                                            available: seq<seq<Core>>)
    ensures
      var nodes := affinity.GetOr(available);
      AllPlaced(runtimes, wanted, affinity, available)
      <==> runtimes == 0
           || (nodes != [] && CoreSet(nodes) <= CoreSet(available) && RoomForAll(runtimes, wanted, nodes))
  {
    var nodes := affinity.GetOr(available);
    if nodes != [] && CoreSet(nodes) <= CoreSet(available) && RoomForAll(runtimes, wanted, nodes) {
      forall r | 0 <= r < runtimes ensures RunStrategy(r, wanted, affinity, available).Ok? {
        RoomSuffices(r, runtimes, wanted, affinity, available);
      }
    }
    if AllPlaced(runtimes, wanted, affinity, available) && runtimes > 0 {
      assert RunStrategy(0, wanted, affinity, available).Ok?;
      forall k | 0 <= k < |nodes| ensures Share(runtimes, |nodes|, k) * wanted <= |nodes[k]| {
        RoomIsNeeded(runtimes, wanted, affinity, available, k);
      }
    }
  }

  lemma {:induction false} MulMono(a: nat, b: nat, c: nat)
    requires a <= b
    ensures a * c <= b * c
  {
  }

  /** `calculate_num_threads_per_runtime`, the number of available cores given. */
  function ThreadsPerRuntime(available: nat, cpus: nat, runtimes: nat): Option<nat>
    requires runtimes > 0
  {
    if cpus > available then None
    else if cpus / runtimes == 0 then None
    else if cpus % runtimes != 0 then None
    else Some(cpus / runtimes)
  }

  /** On a machine with one node every runtime gets the computed number of cores. */
  lemma {:induction false} OneNodeSuffices(node: seq<Core>, cpus: nat, runtimes: nat, r: nat)
    requires r < runtimes && ThreadsPerRuntime(|node|, cpus, runtimes).Some?
    ensures RunStrategy(r, ThreadsPerRuntime(|node|, cpus, runtimes).value, None, [node]).Ok?
    ensures ThreadsPerRuntime(|node|, cpus, runtimes).value > 0
  {
    var threads := ThreadsPerRuntime(|node|, cpus, runtimes).value;
    DivMod(cpus, runtimes);
    assert Share(runtimes, 1, 0) == runtimes;
    assert runtimes * threads == cpus;
    assert RoomForAll(runtimes, threads, [node]);
    AllPlacedExactly(runtimes, threads, None, [node]);
  }
}
