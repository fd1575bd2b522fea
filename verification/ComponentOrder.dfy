/** orderComponents (internal/managedruntime/manager.go): a depth-first
    dependency order that reports missing dependencies and cycles. */
module ComponentOrder {
  import opened RuntimeTypes
  import opened Text

  type Graph = g: map<ComponentId, ComponentPlan> | forall id :: id in g ==> g[id].id == id

  datatype OrderError = MissingDependency(id: ComponentId) | DependencyCycle(id: ComponentId)

  /** What one walk of the closure has built so far. */
  datatype Walk = Walk(visited: set<ComponentId>, ordered: seq<ComponentPlan>)

  datatype Visited = Done(walk: Walk) | Failed(error: OrderError)

  // ----------------------------------------------------- specification function

  /** byID: a later component with the same ID replaces an earlier one. */
  function ById(components: seq<ComponentPlan>): Graph {
    if |components| == 0 then map[]
    else
      var last := components[|components| - 1];
      ById(components[..|components| - 1])[last.id := last]
  }

  function Ids(components: seq<ComponentPlan>): (ids: seq<ComponentId>)
    ensures |ids| == |components|
    ensures forall i :: 0 <= i < |ids| ==> ids[i] == components[i].id
  {
    seq(|components|, i requires 0 <= i < |components| => components[i].id)
  }

  function Visit(g: Graph, id: ComponentId, visiting: set<ComponentId>, w: Walk): Visited
    decreases g.Keys - visiting, 0
  {
    if id in w.visited then Done(w)
    else if id in visiting then Failed(DependencyCycle(id))
    else if id !in g then Failed(MissingDependency(id))
    else
      match VisitAll(g, g[id].dependencies, visiting + {id}, w)
      case Failed(e) => Failed(e)
      case Done(below) => Done(Walk(below.visited + {id}, below.ordered + [g[id]]))
  }

  function VisitAll(g: Graph, ids: seq<ComponentId>, visiting: set<ComponentId>, w: Walk): Visited
    decreases g.Keys - visiting, |ids|
  {
    if |ids| == 0 then Done(w)
    else
      match Visit(g, ids[0], visiting, w)
      case Failed(e) => Failed(e)
      case Done(next) => VisitAll(g, ids[1..], visiting, next)
  }

  function Order(components: seq<ComponentPlan>): Visited {
    VisitAll(ById(components), Ids(components), {}, Walk({}, []))
  }

  // --------------------------------------------------------------- the closure

  class Orderer {
    const byId: Graph
    var visiting: set<ComponentId>
    var visited: set<ComponentId>
    var ordered: seq<ComponentPlan>

    ghost function Progress(): Walk
      reads this
    {
      Walk(visited, ordered)
    }

    constructor (byId: Graph)
      ensures this.byId == byId && visiting == {} && Progress() == Walk({}, [])
    {
      this.byId := byId;
      visiting, visited, ordered := {}, {}, [];
    }

    method VisitOne(id: ComponentId) returns (error: Option<OrderError>)
      modifies this
      ensures Outcome(error, old(visiting), Visit(byId, id, old(visiting), old(Progress())))
      decreases byId.Keys - visiting, 0
    {
      if id in visited { return None; }
      if id in visiting { return Some(DependencyCycle(id)); }
      if id !in byId { return Some(MissingDependency(id)); }
      ghost var before := visiting;
      visiting := visiting + {id};
      error := VisitEach(byId[id].dependencies);
      if error.Some? { return; }
      visiting := visiting - {id};
      assert visiting == before;
      visited := visited + {id};
      ordered := ordered + [byId[id]];
    }

    method VisitEach(ids: seq<ComponentId>) returns (error: Option<OrderError>)
      modifies this
      ensures Outcome(error, old(visiting), VisitAll(byId, ids, old(visiting), old(Progress())))
      decreases byId.Keys - visiting, |ids| + 1
    {
      error := None;
      ghost var all := VisitAll(byId, ids, visiting, Progress());
      for n := 0 to |ids|
        invariant error == None && visiting == old(visiting)
        invariant VisitAll(byId, ids[n..], visiting, Progress()) == all
      {
        assert ids[n..][0] == ids[n] && ids[n..][1..] == ids[n + 1..];
        error := VisitOne(ids[n]);
        if error.Some? { return; }
      }
    }

    /** The closure and the specification agree: same error, or same walk with
        `visiting` put back. */
    ghost predicate Outcome(error: Option<OrderError>, visitingBefore: set<ComponentId>, spec: Visited)
      reads this
    {
      match spec
      case Failed(e) => error == Some(e)
      case Done(walk) => error == None && Progress() == walk && visiting == visitingBefore
    }
  }

  method OrderComponents(components: seq<ComponentPlan>) returns (result: Visited)
    ensures result == Order(components)
  {
    var byId: Graph := map[];
    for n := 0 to |components|
      invariant byId == ById(components[..n])
    {
      assert components[..n + 1][..n] == components[..n];
      byId := byId[components[n].id := components[n]];
    }
    assert components[..|components|] == components;
    var orderer := new Orderer(byId);
    var error := orderer.VisitEach(Ids(components));
    result := if error.Some? then Failed(error.value) else Done(Walk(orderer.visited, orderer.ordered));
  }

  // ------------------------------------------------ what a good order promises

  ghost predicate Edge(g: Graph, a: ComponentId, b: ComponentId) {
    a in g && b in g[a].dependencies
  }

  ghost predicate IsPath(g: Graph, p: seq<ComponentId>) {
    |p| > 0 && forall i {:trigger p[i]} :: 0 <= i < |p| - 1 ==> Edge(g, p[i], p[i + 1])
  }

  /** A walk along dependencies that comes back to where it began. */
  ghost predicate IsCycle(g: Graph, p: seq<ComponentId>) {
    IsPath(g, p) && |p| >= 2 && p[0] == p[|p| - 1]
  }

  ghost predicate Acyclic(g: Graph) { forall p :: !IsCycle(g, p) }

  ghost predicate Closed(g: Graph) { forall a, b :: Edge(g, a, b) ==> b in g }

  ghost predicate Before(ordered: seq<ComponentPlan>, id: ComponentId, k: nat) {
    exists j :: 0 <= j < k && j < |ordered| && ordered[j].id == id
  }

  /** Every component once, taken from the graph, after all its dependencies. */
  ghost predicate GoodOrder(g: Graph, ordered: seq<ComponentPlan>) {
    && (forall k :: 0 <= k < |ordered| ==> ordered[k].id in g && ordered[k] == g[ordered[k].id])
    && (forall j, k :: 0 <= j < k < |ordered| ==> ordered[j].id != ordered[k].id)
    && (forall k, d :: 0 <= k < |ordered| && d in ordered[k].dependencies ==> Before(ordered, d, k))
  }

  ghost predicate GoodWalk(g: Graph, w: Walk) {
    && GoodOrder(g, w.ordered)
    && (forall id :: id in w.visited <==> Before(w.ordered, id, |w.ordered|))
  }

  lemma AppendKeepsGoodWalk(g: Graph, w: Walk, id: ComponentId)
    requires GoodWalk(g, w) && id in g && id !in w.visited
    requires forall d :: d in g[id].dependencies ==> d in w.visited
    ensures GoodWalk(g, Walk(w.visited + {id}, w.ordered + [g[id]]))
  {
    var n := |w.ordered|;
    var ordered := w.ordered + [g[id]];
    forall k, d | 0 <= k < |ordered| && d in ordered[k].dependencies
      ensures Before(ordered, d, k)
    {
      assert Before(w.ordered, d, k);
      var j :| 0 <= j < k && j < n && w.ordered[j].id == d;
      assert ordered[j].id == d;
    }
    forall x
      ensures x in w.visited + {id} <==> Before(ordered, x, |ordered|)
    {
      if x in w.visited {
        var j :| 0 <= j < n && w.ordered[j].id == x;
        assert ordered[j].id == x;
      }
      if x == id { assert ordered[n].id == x; }
      if Before(ordered, x, |ordered|) && x != id {
        var j :| 0 <= j < |ordered| && ordered[j].id == x;
        assert w.ordered[j].id == x;
      }
    }
  }

  lemma {:induction false} VisitKeepsGoodWalk(g: Graph, id: ComponentId, visiting: set<ComponentId>, w: Walk)
    requires GoodWalk(g, w) && w.visited !! visiting
    ensures var r := Visit(g, id, visiting, w);
            r.Done? ==> GoodWalk(g, r.walk) && r.walk.visited !! visiting && w.visited + {id} <= r.walk.visited
    decreases g.Keys - visiting, 0
  {
    if id !in w.visited && id !in visiting && id in g {
      VisitAllKeepsGoodWalk(g, g[id].dependencies, visiting + {id}, w);
      var below := VisitAll(g, g[id].dependencies, visiting + {id}, w);
      if below.Done? { AppendKeepsGoodWalk(g, below.walk, id); }
    }
  }

  lemma {:induction false} VisitAllKeepsGoodWalk(g: Graph, ids: seq<ComponentId>, visiting: set<ComponentId>, w: Walk)
    requires GoodWalk(g, w) && w.visited !! visiting
    ensures var r := VisitAll(g, ids, visiting, w);
            r.Done? ==> GoodWalk(g, r.walk) && r.walk.visited !! visiting
                        && w.visited <= r.walk.visited && (forall id :: id in ids ==> id in r.walk.visited)
    decreases g.Keys - visiting, |ids|
  {
    if |ids| > 0 {
      VisitKeepsGoodWalk(g, ids[0], visiting, w);
      var first := Visit(g, ids[0], visiting, w);
      if first.Done? {
        VisitAllKeepsGoodWalk(g, ids[1..], visiting, first.walk);
        assert ids == [ids[0]] + ids[1..];
      }
    }
  }

  // -------------------------------------------------- what an error is proof of

  /** The claimed reason is really in the graph. */
  ghost predicate Justified(g: Graph, error: OrderError) {
    match error
    case MissingDependency(id) => id !in g && exists a :: Edge(g, a, id)
    case DependencyCycle(id) => exists p :: IsCycle(g, p) && p[0] == id
  }

  /** `stack` is the chain of components being visited, outermost first. */
  ghost predicate Reached(g: Graph, stack: seq<ComponentId>, visiting: set<ComponentId>, id: ComponentId) {
    && (forall x :: x in visiting <==> x in stack)
    && IsPath(g, stack + [id])
    && (|stack| == 0 ==> id in g)
  }

  lemma {:induction false} VisitErrorsAreJustified(g: Graph, id: ComponentId, visiting: set<ComponentId>, w: Walk,
                                                   stack: seq<ComponentId>)
    requires Reached(g, stack, visiting, id)
    ensures var r := Visit(g, id, visiting, w); r.Failed? ==> Justified(g, r.error)
    decreases g.Keys - visiting, 0
  {
    if id in w.visited {
    } else if id in visiting {
      var i :| 0 <= i < |stack| && stack[i] == id;
      var p := (stack + [id])[i..];
      assert forall k :: 0 <= k < |p| ==> p[k] == (stack + [id])[i + k];
      assert IsCycle(g, p) && p[0] == id;
    } else if id !in g {
      assert Edge(g, (stack + [id])[|stack| - 1], (stack + [id])[|stack|]);
    } else {
      VisitAllErrorsAreJustified(g, g[id].dependencies, visiting + {id}, w, stack + [id]);
    }
  }

  lemma {:induction false} VisitAllErrorsAreJustified(g: Graph, ids: seq<ComponentId>, visiting: set<ComponentId>,
                                                      w: Walk, stack: seq<ComponentId>)
    requires |ids| > 0 ==> forall id :: id in ids ==> Reached(g, stack, visiting, id)
    ensures var r := VisitAll(g, ids, visiting, w); r.Failed? ==> Justified(g, r.error)
    decreases g.Keys - visiting, |ids|
  {
    if |ids| > 0 {
      VisitErrorsAreJustified(g, ids[0], visiting, w, stack);
      var first := Visit(g, ids[0], visiting, w);
      if first.Done? { VisitAllErrorsAreJustified(g, ids[1..], visiting, first.walk, stack); }
    }
  }

  // -------------------------------------------------------------- main results

  /** Along a path, positions in a good order go strictly down. */
  lemma {:induction false} PathDescends(g: Graph, ordered: seq<ComponentPlan>, p: seq<ComponentId>, k: nat)
    requires GoodOrder(g, ordered) && IsPath(g, p) && |p| >= 2
    requires k < |ordered| && ordered[k].id == p[0]
    ensures exists j :: 0 <= j < k && ordered[j].id == p[|p| - 1]
    decreases |p|
  {
    assert Edge(g, p[0], p[1]);
    assert ordered[k] == g[p[0]];
    assert Before(ordered, p[1], k);
    var j :| 0 <= j < k && j < |ordered| && ordered[j].id == p[1];
    if |p| > 2 {
      var tail := p[1..];
      forall i | 0 <= i < |tail| - 1 ensures Edge(g, tail[i], tail[i + 1]) {
        assert Edge(g, p[i + 1], p[i + 2]);
      }
      PathDescends(g, ordered, tail, j);
    }
  }

  lemma GoodOrderExcludesCycles(g: Graph, ordered: seq<ComponentPlan>)
    requires GoodOrder(g, ordered) && forall id :: id in g ==> Before(ordered, id, |ordered|)
    ensures Closed(g) && Acyclic(g)
  {
    forall a, b | Edge(g, a, b) ensures b in g {
      var k :| 0 <= k < |ordered| && ordered[k].id == a;
      assert Before(ordered, b, k);
    }
    forall p ensures !IsCycle(g, p) {
      if IsCycle(g, p) {
        assert Edge(g, p[0], p[1]);
        var k :| 0 <= k < |ordered| && ordered[k].id == p[0];
        PathDescends(g, ordered, p, k);
      }
    }
  }

  lemma {:induction false} ByIdKeys(components: seq<ComponentPlan>)
    ensures forall id :: id in ById(components) <==> id in Ids(components)
    ensures forall id :: id in ById(components) ==> ById(components)[id] in components
  {
    if |components| > 0 {
      var n := |components| - 1;
      ByIdKeys(components[..n]);
      assert components == components[..n] + [components[n]];
      assert Ids(components) == Ids(components[..n]) + [components[n].id];
    }
  }

  /** The returned list is exactly the planned components, each once, every one
      after everything it depends on. */
  lemma OrderIsGood(components: seq<ComponentPlan>)
    requires Order(components).Done?
    ensures var ordered := Order(components).walk.ordered;
            && GoodOrder(ById(components), ordered)
            && (forall id :: id in Ids(components) <==> Before(ordered, id, |ordered|))
  {
    var g := ById(components);
    ByIdKeys(components);
    VisitAllKeepsGoodWalk(g, Ids(components), {}, Walk({}, []));
    var w := Order(components).walk;
    forall id ensures id in Ids(components) <==> Before(w.ordered, id, |w.ordered|) {
      if Before(w.ordered, id, |w.ordered|) {
        var j :| 0 <= j < |w.ordered| && w.ordered[j].id == id;
      }
    }
  }

  /** Ordering succeeds exactly when every dependency is planned and no chain of
      dependencies returns to its start. */
  lemma OrderSucceedsExactly(components: seq<ComponentPlan>)
    ensures Order(components).Done? <==> Closed(ById(components)) && Acyclic(ById(components))
    ensures Order(components).Failed? ==> Justified(ById(components), Order(components).error)
  {
    var g := ById(components);
    ByIdKeys(components);
    if Order(components).Done? {
      OrderIsGood(components);
      GoodOrderExcludesCycles(g, Order(components).walk.ordered);
    } else {
      VisitAllErrorsAreJustified(g, Ids(components), {}, Walk({}, []), []);
    }
  }

  lemma {:induction false} DistinctMembersSameMultiset(a: seq<ComponentPlan>, b: seq<ComponentPlan>)
    requires forall i, j :: 0 <= i < j < |a| ==> a[i] != a[j]
    requires forall i, j :: 0 <= i < j < |b| ==> b[i] != b[j]
    requires forall x :: x in a <==> x in b
    ensures multiset(a) == multiset(b)
  {
    forall x ensures multiset(a)[x] == multiset(b)[x] {
      DistinctCount(a, x);
      DistinctCount(b, x);
    }
  }

  lemma {:induction false} DistinctCount(a: seq<ComponentPlan>, x: ComponentPlan)
    requires forall i, j :: 0 <= i < j < |a| ==> a[i] != a[j]
    ensures multiset(a)[x] == if x in a then 1 else 0
  {
    if |a| > 0 {
      DistinctCount(a[1..], x);
      assert a == [a[0]] + a[1..];
    }
  }

  lemma ByIdKeepsDistinct(components: seq<ComponentPlan>)
    requires forall i, j :: 0 <= i < j < |components| ==> components[i].id != components[j].id
    ensures forall c :: c in components ==> c.id in ById(components) && ById(components)[c.id] == c
  {
    ByIdKeys(components);
    forall c | c in components ensures c.id in ById(components) && ById(components)[c.id] == c {
      var i :| 0 <= i < |components| && components[i] == c;
      assert Ids(components)[i] == c.id;
      OneForEachId(components, c, ById(components)[c.id]);
    }
  }

  lemma OneForEachId(components: seq<ComponentPlan>, c: ComponentPlan, d: ComponentPlan)
    requires forall i, j :: 0 <= i < j < |components| ==> components[i].id != components[j].id
    requires c in components && d in components && c.id == d.id
    ensures c == d
  {
  }

  /** With distinct IDs, which every valid plan has, the order is a permutation. */
  lemma OrderIsPermutation(components: seq<ComponentPlan>)
    requires forall i, j :: 0 <= i < j < |components| ==> components[i].id != components[j].id
    requires Order(components).Done?
    ensures multiset(Order(components).walk.ordered) == multiset(components)
  {
    var ordered := Order(components).walk.ordered;
    OrderIsGood(components);
    ByIdKeys(components);
    ByIdKeepsDistinct(components);
    forall c ensures c in ordered <==> c in components {
      if c in components {
        var i :| 0 <= i < |components| && components[i] == c;
        assert Ids(components)[i] == c.id;
        assert Before(ordered, c.id, |ordered|);
        var j :| 0 <= j < |ordered| && ordered[j].id == c.id;
        assert ordered[j] == c;
      }
    }
    DistinctMembersSameMultiset(ordered, components);
  }
}
