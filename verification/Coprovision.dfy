/** Edges to co-provisioned resources: `match_dependents` in `crates/core/src/graph.rs`. */
module Coprovision {
  import opened Ids
  import opened Topology

  /** `co` is provisioned with `source`. */
  datatype CoProvision = CoProvision(source: Descriptor, co: Descriptor, matchDependents: bool)

  /** A resource, other than the two, that depends on the source. */
  predicate IsConsumer(g: Deps, c: CoProvision, n: Descriptor) {
    n in g && c.source in g[n] && n != c.co && n != c.source
  }

  ghost predicate ClosedFor(g: Deps, c: CoProvision) {
    forall n :: IsConsumer(g, c, n) ==> c.co in g[n]
  }

  /** Every consumer of a matching source also depends on the co-provisioned resource. */
  ghost predicate MatchClosed(g: Deps, cos: set<CoProvision>) {
    forall c :: c in cos && c.matchDependents ==> ClosedFor(g, c)
  }

  /** `h` has the nodes of `g` and at least its edges. */
  ghost predicate Extends(g: Deps, h: Deps) {
    g.Keys == h.Keys && forall n :: n in g ==> g[n] <= h[n]
  }

  ghost predicate IsUpper(g: Deps, cos: set<CoProvision>, h: Deps) {
    Extends(g, h) && MatchClosed(h, cos)
  }

  /** The least graph over `g` in which consumers wait for co-provisioned resources. */
  ghost predicate IsMatchClosure(g: Deps, cos: set<CoProvision>, r: Deps) {
    IsUpper(g, cos, r) && forall h :: IsUpper(g, cos, h) ==> Extends(r, h)
  }

  /** There is only one such graph, so the order edges are added in does not matter. */
  lemma ClosureIsUnique(g: Deps, cos: set<CoProvision>, r: Deps, s: Deps)
    requires IsMatchClosure(g, cos, r) && IsMatchClosure(g, cos, s)
    ensures r == s
  {
    assert Extends(r, s) && Extends(s, r);
    assert forall n :: n in r ==> r[n] == s[n];
  }

  /** Edges that could still be added. */
  ghost function Missing(g: Deps, cos: set<CoProvision>): set<(Descriptor, Descriptor)> {
    set n, c | n in g && c in cos && c.co !in g[n] :: (n, c.co)
  }

  function Consumers(g: Deps, c: CoProvision): set<Descriptor> {
    set n | n in g && IsConsumer(g, c, n)
  }

  /** `g` with an edge from each of `consumers` to `co`. */
  function WithEdges(g: Deps, consumers: set<Descriptor>, co: Descriptor): Deps {
    map n | n in g :: if n in consumers then g[n] + {co} else g[n]
  }

  lemma EdgesAdded(g: Deps, cos: set<CoProvision>, c: CoProvision)
    requires c in cos && c.matchDependents
    ensures var r := WithEdges(g, Consumers(g, c), c.co);
      && Extends(g, r)
      && (forall h :: MatchClosed(h, cos) && Extends(g, h) ==> Extends(r, h))
      && Missing(r, cos) <= Missing(g, cos)
      && ((exists n :: n in Consumers(g, c) && c.co !in g[n]) ==> Missing(r, cos) < Missing(g, cos))
      && (!(exists n :: n in Consumers(g, c) && c.co !in g[n]) ==> r == g && ClosedFor(g, c))
  {
    var r := WithEdges(g, Consumers(g, c), c.co);
    forall h | MatchClosed(h, cos) && Extends(g, h) ensures Extends(r, h) {
      assert ClosedFor(h, c);
      forall n | n in Consumers(g, c) ensures c.co in h[n] {
        assert IsConsumer(h, c, n);
      }
    }
    if n :| n in Consumers(g, c) && c.co !in g[n] {
      assert (n, c.co) in Missing(g, cos) && (n, c.co) !in Missing(r, cos);
    } else {
      assert forall n :: n in g ==> r[n] == g[n];
    }
  }

  /** Adds edges to co-provisioned resources until no edge is added. */
  method MatchDependents(g: Deps, cos: set<CoProvision>) returns (r: Deps)
    ensures IsMatchClosure(g, cos, r)
  {
    hide WithEdges, Missing, MatchClosed, Extends;
    r := g;
    ExtendsItself(g);
    while true
      invariant Extends(g, r)
      invariant forall h :: IsUpper(g, cos, h) ==> Extends(r, h)
      decreases Missing(r, cos)
    {
      ghost var before := r;
      var added := false;
      var todo := set c | c in cos && c.matchDependents;
      while todo != {}
        invariant Extends(g, r) && todo <= cos
        invariant forall c :: c in todo ==> c.matchDependents
        invariant forall h :: IsUpper(g, cos, h) ==> Extends(r, h)
        invariant Missing(r, cos) <= Missing(before, cos)
        invariant added ==> Missing(r, cos) < Missing(before, cos)
        invariant !added ==> r == before
        invariant !added ==> forall c :: c in cos && c.matchDependents && c !in todo ==> ClosedFor(r, c)
        decreases todo
      {
        var c :| c in todo;
        todo := todo - {c};
        EdgesAdded(r, cos, c);
        var consumers := Consumers(r, c);
        if exists n :: n in consumers && c.co !in r[n] {
          added := true;
        }
        ExtendsIsTransitive(g, r, WithEdges(r, consumers, c.co));
        r := WithEdges(r, consumers, c.co);
      }
      if !added {
        NothingAdded(r, cos);
        return;
      }
    }
  }

  lemma ExtendsItself(g: Deps)
    ensures Extends(g, g)
    ensures forall cos, h :: IsUpper(g, cos, h) ==> Extends(g, h)
  {
  }

  lemma ExtendsIsTransitive(a: Deps, b: Deps, c: Deps)
    requires Extends(a, b) && Extends(b, c)
    ensures Extends(a, c)
  {
  }

  lemma NothingAdded(r: Deps, cos: set<CoProvision>)
    requires forall c :: c in cos && c.matchDependents ==> ClosedFor(r, c)
    ensures MatchClosed(r, cos)
  {
  }
}
