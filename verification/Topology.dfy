/**
 Ordering a resource graph: `topological_layers` and `find_cycle`.

 A graph maps each resource to the set of resources it depends on. Layers are
 sets: the order inside a layer plays no part in what is proved.
 */
module Topology {
  import opened Basics
  import opened Ids

  type Deps = map<Descriptor, set<Descriptor>>

  /** Every dependency is itself a node. */
  ghost predicate Closed(g: Deps) {
    forall d, e :: d in g && e in g[d] ==> e in g
  }

  /** A dependency chain: each resource depends on the next. */
  ghost predicate IsPath(g: Deps, p: seq<Descriptor>) {
    && |p| > 0
    && (forall i :: 0 <= i < |p| ==> p[i] in g)
    && (forall i :: 0 < i < |p| ==> p[i] in g[p[i - 1]])
  }

  ghost predicate IsCycle(g: Deps, c: seq<Descriptor>) {
    IsPath(g, c) && |c| > 1 && c[0] == c[|c| - 1]
  }

  /** A cycle that visits no resource twice, except its end, which is its start. */
  ghost predicate IsSimpleCycle(g: Deps, c: seq<Descriptor>) {
    IsCycle(g, c) && forall i, j :: 0 <= i < j < |c| - 1 ==> c[i] != c[j]
  }

  ghost predicate Acyclic(g: Deps) {
    forall c :: !IsCycle(g, c)
  }

  /** The resources of the first `n` layers. */
  ghost function Before(layers: seq<set<Descriptor>>, n: nat): set<Descriptor>
    requires n <= |layers|
  {
    if n == 0 then {} else Before(layers, n - 1) + layers[n - 1]
  }

  /** The resources not placed yet whose dependencies all are. */
  ghost function Ready(g: Deps, placed: set<Descriptor>): set<Descriptor> {
    set d | d in g && d !in placed && g[d] <= placed
  }

  ghost predicate LayerIsReady(g: Deps, layers: seq<set<Descriptor>>, n: nat)
    requires n < |layers|
  {
    layers[n] == Ready(g, Before(layers, n))
  }

  ghost predicate Layered(g: Deps, layers: seq<set<Descriptor>>) {
    forall n :: 0 <= n < |layers| ==> LayerIsReady(g, layers, n)
  }

  lemma BeforeGrows(layers: seq<set<Descriptor>>, m: nat, n: nat)
    requires m <= n <= |layers|
    ensures Before(layers, m) <= Before(layers, n)
  {
    if m < n {
      BeforeGrows(layers, m, n - 1);
    }
  }

  lemma BeforeAppend(layers: seq<set<Descriptor>>, layer: set<Descriptor>, n: nat)
    requires n <= |layers|
    ensures Before(layers + [layer], n) == Before(layers, n)
  {
    if n > 0 {
      BeforeAppend(layers, layer, n - 1);
      assert (layers + [layer])[n - 1] == layers[n - 1];
    }
  }

  /** The layer that placed `d`. */
  lemma PlacedIn(layers: seq<set<Descriptor>>, n: nat, d: Descriptor) returns (k: nat)
    requires n <= |layers| && d in Before(layers, n)
    ensures k < n && d in layers[k]
  {
    if d in layers[n - 1] {
      k := n - 1;
    } else {
      k := PlacedIn(layers, n - 1, d);
    }
  }

  lemma Placed(layers: seq<set<Descriptor>>, n: nat, k: nat, d: Descriptor)
    requires k < n <= |layers| && d in layers[k]
    ensures d in Before(layers, n)
  {
    BeforeGrows(layers, k + 1, n);
  }

  /** No chain from a resource of layer `n` is longer than `n + 1`. */
  lemma {:induction false} ChainIsShort(g: Deps, layers: seq<set<Descriptor>>, p: seq<Descriptor>, n: nat)
    requires Layered(g, layers) && n < |layers|
    requires IsPath(g, p) && p[0] in layers[n]
    ensures |p| <= n + 1
    decreases |p|
  {
    assert LayerIsReady(g, layers, n);
    if |p| > 1 {
      assert p[1] in g[p[0]];
      var k := PlacedIn(layers, n, p[1]);
      var rest := p[1..];
      assert forall i :: 0 < i < |rest| ==> rest[i] == p[i + 1] && rest[i - 1] == p[i];
      ChainIsShort(g, layers, rest, k);
    }
  }

  /** Some chain from a resource of layer `n` has length `n + 1`. */
  lemma {:induction false} LongChain(g: Deps, layers: seq<set<Descriptor>>, n: nat, d: Descriptor)
    returns (p: seq<Descriptor>)
    requires Layered(g, layers) && Closed(g) && n < |layers| && d in layers[n]
    ensures IsPath(g, p) && p[0] == d && |p| == n + 1
    decreases n
  {
    assert LayerIsReady(g, layers, n);
    if n == 0 {
      p := [d];
    } else {
      assert LayerIsReady(g, layers, n - 1);
      assert !(g[d] <= Before(layers, n - 1));
      var e :| e in g[d] && e !in Before(layers, n - 1);
      assert e in layers[n - 1];
      var rest := LongChain(g, layers, n - 1, e);
      p := [d] + rest;
      forall i | 0 < i < |p| ensures p[i] in g[p[i - 1]] {
        if i == 1 { assert p[0] == d && p[1] == e; } else { assert p[i] == rest[i - 1] && p[i - 1] == rest[i - 2]; }
      }
    }
  }

  /** `n` is the length, in edges, of the longest dependency chain from `d`. */
  ghost predicate IsDepth(g: Deps, d: Descriptor, n: nat) {
    && (exists p :: IsPath(g, p) && p[0] == d && |p| == n + 1)
    && (forall p :: IsPath(g, p) && p[0] == d ==> |p| <= n + 1)
  }

  /** The layers hold every node once, each in the layer its depth names. */
  ghost predicate IsLayering(g: Deps, layers: seq<set<Descriptor>>) {
    && (forall d :: d in g ==> exists n :: 0 <= n < |layers| && d in layers[n])
    && (forall n, d :: 0 <= n < |layers| && d in layers[n] ==> d in g && IsDepth(g, d, n))
    && (forall m, n, d :: 0 <= m < n < |layers| && d in layers[m] ==> d !in layers[n])
    && (forall n :: 0 <= n < |layers| ==> layers[n] != {})
  }

  lemma DepthIsUnique(g: Deps, d: Descriptor, m: nat, n: nat)
    requires IsDepth(g, d, m) && IsDepth(g, d, n)
    ensures m == n
  {
  }

  lemma LayerIsSame(g: Deps, a: seq<set<Descriptor>>, b: seq<set<Descriptor>>, n: nat)
    requires IsLayering(g, a) && IsLayering(g, b) && n < |a|
    ensures n < |b| && a[n] <= b[n]
  {
    hide IsDepth;
    forall d | d in a[n] ensures n < |b| && d in b[n] {
      assert d in g;
      var k :| 0 <= k < |b| && d in b[k];
      DepthIsUnique(g, d, n, k);
    }
    assert a[n] != {};
    var d :| d in a[n];
  }

  /** A graph has at most one layering. */
  lemma LayeringIsUnique(g: Deps, a: seq<set<Descriptor>>, b: seq<set<Descriptor>>)
    requires IsLayering(g, a) && IsLayering(g, b)
    ensures a == b
  {
    hide IsLayering;
    if |a| > 0 {
      LayerIsSame(g, a, b, |a| - 1);
    }
    if |b| > 0 {
      LayerIsSame(g, b, a, |b| - 1);
    }
    forall n: nat | n < |a| ensures a[n] == b[n] {
      LayerIsSame(g, a, b, n);
      LayerIsSame(g, b, a, n);
    }
  }

  lemma LayeredIsLayering(g: Deps, layers: seq<set<Descriptor>>)
    requires Layered(g, layers) && Closed(g)
    requires Before(layers, |layers|) == g.Keys
    requires forall n :: 0 <= n < |layers| ==> layers[n] != {}
    ensures IsLayering(g, layers)
  {
    forall d | d in g ensures exists n :: 0 <= n < |layers| && d in layers[n] {
      var k := PlacedIn(layers, |layers|, d);
    }
    forall n, d | 0 <= n < |layers| && d in layers[n] ensures d in g && IsDepth(g, d, n) {
      assert LayerIsReady(g, layers, n);
      var p := LongChain(g, layers, n, d);
      forall q | IsPath(g, q) && q[0] == d ensures |q| <= n + 1 {
        ChainIsShort(g, layers, q, n);
      }
    }
    forall m, n, d | 0 <= m < n < |layers| && d in layers[m] ensures d !in layers[n] {
      assert LayerIsReady(g, layers, n);
      Placed(layers, n, m, d);
    }
  }

  /** A graph whose nodes all have a depth has no cycle. */
  lemma LayeringIsAcyclic(g: Deps, layers: seq<set<Descriptor>>)
    requires IsLayering(g, layers)
    ensures Acyclic(g)
  {
    forall c ensures !IsCycle(g, c) {
      if IsCycle(g, c) {
        var n :| 0 <= n < |layers| && c[0] in layers[n];
        var p := Around(g, c, n + 2);
      }
    }
  }

  /** Going around a cycle gives chains of every length. */
  lemma {:induction false} Around(g: Deps, c: seq<Descriptor>, n: nat) returns (p: seq<Descriptor>)
    requires IsCycle(g, c)
    ensures IsPath(g, p) && p[0] == c[0] && |p| > n && p[|p| - 1] == c[0]
    decreases n
  {
    p := c;
    if n > 0 {
      var q := Around(g, c, n - 1);
      p := q + c[1..];
      forall i | 0 < i < |p| ensures p[i] in g[p[i - 1]] {
        if i < |q| {
          assert p[i] == q[i] && p[i - 1] == q[i - 1];
        } else {
          assert p[i] == c[i - |q| + 1] && p[i - 1] == c[i - |q|];
        }
      }
    }
  }

  lemma PathExtends(g: Deps, p: seq<Descriptor>, d: Descriptor)
    requires IsPath(g, p) && d in g && d in g[p[|p| - 1]]
    ensures IsPath(g, p + [d])
  {
  }

  lemma PathSuffix(g: Deps, p: seq<Descriptor>, i: nat)
    requires IsPath(g, p) && i < |p|
    ensures IsPath(g, p[i..])
  {
    forall k | 0 < k < |p[i..]| ensures p[i..][k] in g[p[i..][k - 1]] {
      assert p[i..][k] == p[i + k] && p[i..][k - 1] == p[i + k - 1];
    }
  }

  /** A step back to an earlier resource of a chain closes a cycle. */
  lemma CycleCloses(g: Deps, p: seq<Descriptor>, i: nat)
    requires IsPath(g, p) && i < |p| && p[i] in g[p[|p| - 1]]
    requires forall j, k :: 0 <= j < k < |p| ==> p[j] != p[k]
    ensures IsSimpleCycle(g, p[i..] + [p[i]])
  {
    PathSuffix(g, p, i);
    PathExtends(g, p[i..], p[i]);
    var c := p[i..] + [p[i]];
    assert c[0] == p[i] == c[|c| - 1];
  }

  /** `find_cycle`: follows dependencies until one comes round. */
  method FindCycle(remaining: Deps) returns (cycle: seq<Descriptor>)
    requires remaining.Keys != {} && Closed(remaining)
    requires forall d :: d in remaining ==> remaining[d] != {}
    ensures IsSimpleCycle(remaining, cycle)
  {
    var start :| start in remaining.Keys;
    var path := [start];
    var seen: map<Descriptor, nat> := map[start := 0];
    var current := start;
    while true
      invariant IsPath(remaining, path) && current == path[|path| - 1]
      invariant forall d :: d in seen ==> seen[d] < |path| && path[seen[d]] == d
      invariant forall i :: 0 <= i < |path| ==> path[i] in seen && seen[path[i]] == i
      decreases remaining.Keys - seen.Keys
    {
      var next :| next in remaining[current];
      if next in seen {
        CycleCloses(remaining, path, seen[next]);
        return path[seen[next]..] + [next];
      }
      PathExtends(remaining, path, next);
      assert next in remaining.Keys - seen.Keys;
      seen := seen[next := |path|];
      path := path + [next];
      current := next;
    }
  }

  /** What `TopologicalLayers` still has to place once `placed` is. */
  ghost function Rest(g: Deps, placed: set<Descriptor>): Deps {
    map d | d in g && d !in placed :: g[d] - placed
  }

  lemma CycleInRest(g: Deps, placed: set<Descriptor>, c: seq<Descriptor>)
    requires IsSimpleCycle(Rest(g, placed), c)
    ensures IsSimpleCycle(g, c)
  {
  }

  lemma RestIsClosed(g: Deps, placed: set<Descriptor>)
    requires Closed(g)
    ensures Closed(Rest(g, placed))
  {
  }

  /** The resources that wait for nothing. */
  function Unblocked(remaining: Deps): set<Descriptor> {
    set d | d in remaining && remaining[d] == {}
  }

  /** `remaining` once the resources in `ready` are placed. */
  function WithoutReady(remaining: Deps, ready: set<Descriptor>): Deps {
    map d | d in remaining && d !in ready :: remaining[d] - ready
  }

  /** Resources with nothing left to wait for are the next layer. */
  lemma RestReady(g: Deps, placed: set<Descriptor>)
    ensures Unblocked(Rest(g, placed)) == Ready(g, placed)
  {
    forall d | d in g && d !in placed ensures g[d] - placed == {} <==> g[d] <= placed {
      assert g[d] <= placed ==> g[d] - placed == {};
      assert forall e :: e in g[d] && e !in placed ==> e in g[d] - placed;
    }
  }

  lemma RestShrinks(g: Deps, placed: set<Descriptor>, ready: set<Descriptor>)
    ensures WithoutReady(Rest(g, placed), ready) == Rest(g, placed + ready)
  {
    assert forall d :: d in g ==> g[d] - placed - ready == g[d] - (placed + ready);
  }

  /** `topological_layers` */
  method TopologicalLayers(g: Deps) returns (r: Result<seq<set<Descriptor>>, seq<Descriptor>>)
    requires Closed(g)
    ensures r.Ok? <==> Acyclic(g)
    ensures r.Ok? ==> IsLayering(g, r.value)
    ensures r.Err? ==> IsSimpleCycle(g, r.error)
  {
    var remaining := g;
    var layers: seq<set<Descriptor>> := [];
    ghost var placed: set<Descriptor> := {};
    assert remaining == Rest(g, placed) by {
      assert forall d :: d in g ==> g[d] - placed == g[d];
    }
    while remaining.Keys != {}
      invariant Layered(g, layers)
      invariant forall n :: 0 <= n < |layers| ==> layers[n] != {}
      invariant placed == Before(layers, |layers|) && placed <= g.Keys
      invariant remaining == Rest(g, placed)
      decreases remaining.Keys
    {
      RestReady(g, placed);
      RestIsClosed(g, placed);
      var ready := Unblocked(remaining);
      if ready == {} {
        assert forall d :: d in remaining && remaining[d] == {} ==> d in ready;
        var cycle := FindCycle(remaining);
        CycleInRest(g, placed, cycle);
        assert IsCycle(g, cycle);
        return Err(cycle);
      }
      LayerAdded(g, layers, ready);
      RestShrinks(g, placed, ready);
      remaining := WithoutReady(remaining, ready);
      layers := layers + [ready];
      placed := placed + ready;
    }
    LayeredIsLayering(g, layers);
    LayeringIsAcyclic(g, layers);
    r := Ok(layers);
  }

  lemma LayerAdded(g: Deps, layers: seq<set<Descriptor>>, ready: set<Descriptor>)
    requires Layered(g, layers) && ready == Ready(g, Before(layers, |layers|))
    ensures Layered(g, layers + [ready])
    ensures Before(layers + [ready], |layers| + 1) == Before(layers, |layers|) + ready
  {
    var longer := layers + [ready];
    forall n | 0 <= n < |longer| ensures LayerIsReady(g, longer, n) {
      BeforeAppend(layers, ready, n);
      if n < |layers| {
        assert LayerIsReady(g, layers, n);
      }
    }
    BeforeAppend(layers, ready, |layers|);
  }
}
