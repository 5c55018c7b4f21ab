/** Transitive dependencies, and the sets of resources that can be finished when a resource starts. */
module Ancestry {
  import opened Ids
  import opened Topology

  // ---- Cycles ----

  /** Where every resource has a dependency in `g`, following them goes round. */
  lemma WalkGoesRound(g: Deps, p: seq<Descriptor>)
    requires Closed(g) && (forall d :: d in g ==> g[d] != {}) && IsPath(g, p)
    requires forall i, j :: 0 <= i < j < |p| ==> p[i] != p[j]
    ensures !Acyclic(g)
    decreases g.Keys - set d | d in p
  {
    var last := p[|p| - 1];
    assert last in g;
    var next :| next in g[last];
    if i :| 0 <= i < |p| && p[i] == next {
      CycleCloses(g, p, i);
    } else {
      PathExtends(g, p, next);
      assert next in g.Keys - (set d | d in p) && next in p + [next];
      WalkGoesRound(g, p + [next]);
    }
  }

  ghost function Within(g: Deps, nodes: set<Descriptor>): Deps {
    map d | d in g && d in nodes :: g[d] * nodes
  }

  lemma CycleWithin(g: Deps, nodes: set<Descriptor>, c: seq<Descriptor>)
    requires IsCycle(Within(g, nodes), c)
    ensures IsCycle(g, c)
  {
  }

  /** In an acyclic graph, no set of resources can each depend on another of the set. */
  lemma NoEndlessChain(g: Deps, bad: set<Descriptor>)
    requires Acyclic(g) && bad <= g.Keys
    requires forall d :: d in bad ==> g[d] * bad != {}
    ensures bad == {}
  {
    hide IsCycle;
    if d :| d in bad {
      var sub := Within(g, bad);
      assert IsPath(sub, [d]);
      WalkGoesRound(sub, [d]);
      var c :| IsCycle(sub, c);
      CycleWithin(g, bad, c);
    }
  }

  // ---- Transitive dependencies ----

  /** `e` is a dependency of `d`, direct or not. */
  ghost predicate DependsOn(g: Deps, d: Descriptor, e: Descriptor) {
    exists c :: IsPath(g, c) && |c| > 1 && c[0] == d && c[|c| - 1] == e
  }

  ghost function Below(g: Deps, d: Descriptor): set<Descriptor> {
    set e | e in g && DependsOn(g, d, e)
  }

  lemma Direct(g: Deps, d: Descriptor, e: Descriptor)
    requires Closed(g) && d in g && e in g[d]
    ensures DependsOn(g, d, e)
  {
    assert IsPath(g, [d, e]);
  }

  lemma Joined(g: Deps, a: seq<Descriptor>, b: seq<Descriptor>)
    requires IsPath(g, a) && IsPath(g, b) && a[|a| - 1] == b[0]
    ensures IsPath(g, a + b[1..])
  {
    var c := a + b[1..];
    forall i | 0 < i < |c| ensures c[i] in g[c[i - 1]] {
      if i >= |a| {
        assert c[i] == b[i - |a| + 1] && c[i - 1] == b[i - |a|];
      }
    }
  }

  lemma Transitive(g: Deps, d: Descriptor, e: Descriptor, f: Descriptor)
    requires DependsOn(g, d, e) && DependsOn(g, e, f)
    ensures DependsOn(g, d, f)
  {
    var a :| IsPath(g, a) && |a| > 1 && a[0] == d && a[|a| - 1] == e;
    var b :| IsPath(g, b) && |b| > 1 && b[0] == e && b[|b| - 1] == f;
    Joined(g, a, b);
    var c := a + b[1..];
    assert c[|c| - 1] == f;
  }

  /** A dependency is direct, or one of a direct dependency. */
  lemma FirstStep(g: Deps, d: Descriptor, e: Descriptor)
    requires DependsOn(g, d, e)
    ensures d in g && e in g
    ensures e in g[d] || exists y :: y in g[d] && DependsOn(g, y, e)
  {
    var c :| IsPath(g, c) && |c| > 1 && c[0] == d && c[|c| - 1] == e;
    var rest := c[1..];
    assert c[1] in g[d];
    if |c| > 2 {
      assert IsPath(g, rest) && rest[|rest| - 1] == e;
      assert DependsOn(g, c[1], e);
    }
  }

  lemma NotItself(g: Deps, d: Descriptor)
    requires Acyclic(g)
    ensures !DependsOn(g, d, d)
  {
    if c :| IsPath(g, c) && |c| > 1 && c[0] == d && c[|c| - 1] == d {
      assert IsCycle(g, c);
    }
  }

  lemma BelowSteps(g: Deps, d: Descriptor, e: Descriptor)
    requires Closed(g) && d in g
    ensures e in Below(g, d) <==> e in g[d] || exists y :: y in g[d] && e in Below(g, y)
  {
    hide DependsOn;
    if DependsOn(g, d, e) {
      FirstStep(g, d, e);
    }
    if e in g[d] {
      Direct(g, d, e);
    }
    if y :| y in g[d] && e in Below(g, y) {
      Direct(g, d, y);
      Transitive(g, d, y, e);
    }
  }

  // ---- Sets that hold what their members depend on ----

  ghost predicate IsWhole(g: Deps, s: set<Descriptor>) {
    forall d, e :: d in s && d in g && e in g[d] ==> e in s
  }

  lemma {:induction false} WholeHoldsPath(g: Deps, s: set<Descriptor>, c: seq<Descriptor>, n: nat)
    requires IsWhole(g, s) && IsPath(g, c) && n < |c| && c[0] in s
    ensures c[n] in s
  {
    if n > 0 {
      WholeHoldsPath(g, s, c, n - 1);
      assert c[n] in g[c[n - 1]];
    }
  }

  lemma WholeHoldsBelow(g: Deps, s: set<Descriptor>, d: Descriptor, e: Descriptor)
    requires IsWhole(g, s) && d in s && DependsOn(g, d, e)
    ensures e in s
  {
    var c :| IsPath(g, c) && |c| > 1 && c[0] == d && c[|c| - 1] == e;
    WholeHoldsPath(g, s, c, |c| - 1);
  }

  lemma BelowIsWhole(g: Deps, d: Descriptor)
    requires Closed(g)
    ensures IsWhole(g, Below(g, d)) && IsWhole(g, Below(g, d) + {d})
  {
    hide DependsOn;
    forall e, f | e in Below(g, d) + {d} && e in g && f in g[e] ensures f in Below(g, d) {
      Direct(g, e, f);
      if e != d {
        Transitive(g, d, e, f);
      }
    }
  }

  // ---- What can be finished when a resource starts ----

  /**
   A resource starts as soon as the last of its dependencies ends. So `s` holds them
   and what they depend on, and could do without one of them.
   */
  ghost predicate CanStartWith(g: Deps, d: Descriptor, s: set<Descriptor>) {
    && d in g && d !in s && s <= g.Keys && g[d] <= s && IsWhole(g, s)
    && if g[d] == {} then s == {} else exists x :: x in g[d] && IsWhole(g, s - {x})
  }

  /** A dependency of `d` that no other dependency of `d` depends on. */
  ghost predicate IsLast(g: Deps, d: Descriptor, x: Descriptor)
    requires d in g
  {
    x in g[d] && forall e :: e in g[d] ==> !DependsOn(g, e, x)
  }

  lemma StartHoldsBelow(g: Deps, d: Descriptor, s: set<Descriptor>)
    requires Closed(g) && CanStartWith(g, d, s)
    ensures Below(g, d) <= s
  {
    hide DependsOn;
    forall e | e in Below(g, d) ensures e in s {
      BelowSteps(g, d, e);
      if e !in g[d] {
        var y :| y in g[d] && e in Below(g, y);
        WholeHoldsBelow(g, s, y, e);
      }
    }
  }

  /** Going up from `x` among the dependencies of `d` ends at a last one. */
  lemma LastExists(g: Deps, d: Descriptor, x: Descriptor) returns (last: Descriptor)
    requires Acyclic(g) && d in g && x in g[d]
    ensures IsLast(g, d, last)
    decreases set e | e in g[d] && DependsOn(g, e, x)
  {
    hide DependsOn, Acyclic;
    if e :| e in g[d] && DependsOn(g, e, x) {
      NotItself(g, e);
      forall f | f in g[d] && DependsOn(g, f, e) ensures DependsOn(g, f, x) {
        Transitive(g, f, e, x);
      }
      var above, next := (set f | f in g[d] && DependsOn(g, f, x)), (set f | f in g[d] && DependsOn(g, f, e));
      assert e in above && e !in next;
      last := LastExists(g, d, e);
    } else {
      last := x;
    }
  }

  /** The least set that holds `d`'s dependencies and `o`. */
  ghost function With(g: Deps, d: Descriptor, o: Descriptor): set<Descriptor> {
    Below(g, d) + Below(g, o) + {o}
  }

  /** Nothing below `d` depends on a last dependency of `d`. */
  lemma LastIsOnTop(g: Deps, d: Descriptor, x: Descriptor, y: Descriptor)
    requires Closed(g) && Acyclic(g) && d in g && IsLast(g, d, x) && y in Below(g, d)
    ensures !DependsOn(g, y, x)
  {
    hide DependsOn, Acyclic;
    BelowSteps(g, d, y);
    if DependsOn(g, y, x) && y !in g[d] {
      var z :| z in g[d] && y in Below(g, z);
      Transitive(g, z, y, x);
    }
  }

  lemma WithoutLast(g: Deps, d: Descriptor, s: set<Descriptor>, x: Descriptor)
    requires Closed(g) && IsWhole(g, s) && forall y :: y in s ==> !DependsOn(g, y, x)
    ensures IsWhole(g, s - {x})
  {
    hide DependsOn;
    forall y, e | y in s - {x} && y in g && e in g[y] ensures e in s - {x} {
      Direct(g, y, e);
    }
  }

  /** A resource can start with just what it depends on. */
  lemma BelowCanStart(g: Deps, d: Descriptor)
    requires Closed(g) && Acyclic(g) && d in g
    ensures CanStartWith(g, d, Below(g, d))
  {
    hide DependsOn, Acyclic;
    BelowIsWhole(g, d);
    NotItself(g, d);
    forall e ensures e in Below(g, d) <==> e in g[d] || exists y :: y in g[d] && e in Below(g, y) {
      BelowSteps(g, d, e);
    }
    if g[d] != {} {
      var any :| any in g[d];
      var x := LastExists(g, d, any);
      forall y | y in Below(g, d) ensures !DependsOn(g, y, x) {
        LastIsOnTop(g, d, x, y);
      }
      WithoutLast(g, d, Below(g, d), x);
    }
  }

  // ---- What can finish before a resource starts ----

  /** `d` has a last dependency that `o` does not depend on, so `o` need not wait for it. */
  ghost predicate CanPrecede(g: Deps, d: Descriptor, o: Descriptor)
    requires d in g
  {
    exists x :: IsLast(g, d, x) && !DependsOn(g, o, x)
  }

  lemma WithCanStart(g: Deps, d: Descriptor, o: Descriptor)
    requires Closed(g) && Acyclic(g) && d in g && o in g && o != d && o !in Below(g, d) && CanPrecede(g, d, o)
    ensures CanStartWith(g, d, With(g, d, o))
  {
    hide DependsOn, Acyclic;
    var x :| IsLast(g, d, x) && !DependsOn(g, o, x);
    var s := With(g, d, o);
    BelowIsWhole(g, d);
    BelowIsWhole(g, o);
    assert IsWhole(g, s) by {
      assert s == Below(g, d) + (Below(g, o) + {o});
    }
    NotItself(g, d);
    Direct(g, d, x);
    if DependsOn(g, o, d) {
      Transitive(g, o, d, x);
    }
    forall e | e in g[d] ensures e in Below(g, d) {
      Direct(g, d, e);
    }
    forall y | y in s ensures !DependsOn(g, y, x) {
      if y in Below(g, d) {
        LastIsOnTop(g, d, x, y);
      } else if y != o && DependsOn(g, y, x) {
        Transitive(g, o, y, x);
      }
    }
    WithoutLast(g, d, s, x);
  }

  lemma PrecedingNeedNotWait(g: Deps, d: Descriptor, s: set<Descriptor>, o: Descriptor)
    requires Closed(g) && Acyclic(g) && CanStartWith(g, d, s) && o in s && o !in Below(g, d)
    ensures CanPrecede(g, d, o)
  {
    hide DependsOn, Acyclic;
    var x :| x in g[d] && IsWhole(g, s - {x});
    Direct(g, d, x);
    assert o != x;
    if DependsOn(g, o, x) {
      WholeHoldsBelow(g, s - {x}, o, x);
    }
    forall e | e in g[d] ensures !DependsOn(g, e, x) {
      if DependsOn(g, e, x) {
        NotItself(g, x);
        WholeHoldsBelow(g, s - {x}, e, x);
      }
    }
    assert IsLast(g, d, x);
  }

  /** A resource that is no dependency of `d` can be finished when `d` starts in just this case. */
  lemma CanPrecedeIff(g: Deps, d: Descriptor, o: Descriptor)
    requires Closed(g) && Acyclic(g) && d in g && o in g && o != d && o !in Below(g, d)
    ensures CanPrecede(g, d, o) <==> exists s :: CanStartWith(g, d, s) && o in s
  {
    hide DependsOn, Acyclic, CanPrecede, CanStartWith;
    if CanPrecede(g, d, o) {
      WithCanStart(g, d, o);
      assert o in With(g, d, o);
    }
    if s :| CanStartWith(g, d, s) && o in s {
      PrecedingNeedNotWait(g, d, s, o);
    }
  }
}
