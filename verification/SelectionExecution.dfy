/**
 * Directed analysis of a node selection: the collapsed node digraph, its cyclic nodes, the
 * first and last selected nodes, what lies between them, and contiguity.
 */
module SelectionExecution {
  import opened Graphs
  import opened Identity
  import opened Reroute
  import opened AllProducers
  import opened Tarjan

  // ---------------------------------------------------------------------
  // The node digraph

  /** `u` feeds an input of `v` through a link, its aliases and every candidate. */
  ghost predicate LinkEdge(def: GraphDef, l: LinkData, u: Id, v: Id) {
    l.to.PortEndpoint? && l.to.ref.node == v && exists ref :: OutputAbove(def, l, ref) && ref.node == u
  }

  ghost predicate OutputAbove(def: GraphDef, l: LinkData, ref: PortRef) {
    Produces(def, true, map[], l.from, Output(ref, None))
  }

  ghost predicate NetEdge(n: NetData, u: Id, v: Id) {
    n.source.node == u && exists p :: p in n.sinks && p.node == v
  }

  /** The collapsed edge relation of the first links and nets. */
  ghost predicate Feeds(def: GraphDef, links: seq<LinkData>, nets: seq<NetData>, u: Id, v: Id) {
    (exists l :: l in links && LinkEdge(def, l, u, v)) || (exists n :: n in nets && NetEdge(n, u, v))
  }

  /** The two adjacency maps hold the same edges, in opposite directions. */
  ghost predicate Mirrored(forward: Digraph, reverse: Digraph) {
    && forward.Keys == reverse.Keys && WellFormed(forward) && WellFormed(reverse)
    && (forall u, v :: u in forward && v in forward ==> (v in forward[u] <==> u in reverse[v]))
  }

  /** `pairs` are the collapsed edges met so far. */
  ghost predicate Built(forward: Digraph, reverse: Digraph, nodes: set<Id>, pairs: set<(Id, Id)>) {
    && forward.Keys == nodes && Mirrored(forward, reverse)
    && (forall u, v :: u in nodes && v in nodes ==> (v in forward[u] <==> (u, v) in pairs))
  }

  method AddEdge(forward: Digraph, reverse: Digraph, ghost nodes: set<Id>, ghost pairs: set<(Id, Id)>, u: Id, v: Id)
    returns (forward': Digraph, reverse': Digraph)
    requires Built(forward, reverse, nodes, pairs)
    ensures Built(forward', reverse', nodes, pairs + {(u, v)})
  {
    forward', reverse' := forward, reverse;
    if u in forward && v in forward {
      forward' := forward[u := forward[u] + {v}];
      reverse' := reverse[v := reverse[v] + {u}];
    }
  }

  /** The edges one link contributes. */
  method AddLink(def: GraphDef, index: RerouteIndex, link: LinkData, forward: Digraph, reverse: Digraph,
                 ghost pairs: set<(Id, Id)>)
    returns (forward': Digraph, reverse': Digraph, ghost pairs': set<(Id, Id)>)
    requires Built(forward, reverse, def.nodes, pairs) && Indexes(index, def)
    ensures Built(forward', reverse', def.nodes, pairs')
    ensures forall u, v :: u in def.nodes && v in def.nodes ==>
              ((u, v) in pairs' <==> (u, v) in pairs || LinkEdge(def, link, u, v))
  {
    hide Produces;
    hide Indexes;
    forward', reverse', pairs' := forward, reverse, pairs;
    if !link.to.PortEndpoint? || link.to.ref.node !in def.nodes {
      return;
    }
    var traces, _ := TraceEndpointAll(def, link.from, Some(index), map[]);
    OutputsTraced(def, link, traces);
    hide AllResults;
    hide AllVia;
    for j := 0 to |traces|
      invariant Built(forward', reverse', def.nodes, pairs')
      invariant forall u, v ::
                (u, v) in pairs' <==> (u, v) in pairs || (v == link.to.ref.node && FirstOutputs(traces, j, u))
    {
      if traces[j].Output? {
        forward', reverse' := AddEdge(forward', reverse', def.nodes, pairs', traces[j].ref.node, link.to.ref.node);
        pairs' := pairs' + {(traces[j].ref.node, link.to.ref.node)};
      }
    }
  }

  /** One of the first `j` traces is an output of node `u`. */
  ghost predicate FirstOutputs(traces: seq<RerouteTrace>, j: nat, u: Id) {
    exists k :: 0 <= k < j && k < |traces| && traces[k].Output? && traces[k].ref.node == u
  }

  lemma OutputsTraced(def: GraphDef, link: LinkData, traces: seq<RerouteTrace>)
    requires AllResults(def, true, map[], link.from, traces)
    ensures forall u :: FirstOutputs(traces, |traces|, u) <==> exists ref ::
            OutputAbove(def, link, ref) && ref.node == u
  {
    forall u
      ensures FirstOutputs(traces, |traces|, u) <==> exists ref :: OutputAbove(def, link, ref) && ref.node == u
    {
      if FirstOutputs(traces, |traces|, u) {
        var k :| 0 <= k < |traces| && traces[k].Output? && traces[k].ref.node == u;
        assert traces[k] in traces;
        UnlinkedOutput(def, link.from, traces[k]);
        assert OutputAbove(def, link, traces[k].ref);
      }
      if ref :| OutputAbove(def, link, ref) && ref.node == u {
        assert Output(ref, None) in traces;
        var k :| 0 <= k < |traces| && traces[k] == Output(ref, None);
      }
    }
  }

  /** Listed producers carry no provenance link. */
  lemma UnlinkedOutput(def: GraphDef, from: LinkEndpoint, t: RerouteTrace)
    requires Produces(def, true, map[], from, t) && t.Output?
    ensures t.lastLink == None
  {
  }

  /** `pairs` are the collapsed edges of the links and nets given. */
  ghost predicate Collects(def: GraphDef, links: seq<LinkData>, nets: seq<NetData>, pairs: set<(Id, Id)>) {
    forall u, v :: u in def.nodes && v in def.nodes ==> ((u, v) in pairs <==> Feeds(def, links, nets, u, v))
  }

  lemma CollectLink(def: GraphDef, links: seq<LinkData>, l: LinkData, pairs: set<(Id, Id)>, pairs': set<(Id, Id)>)
    requires Collects(def, links, [], pairs)
    requires forall u, v ::
             u in def.nodes && v in def.nodes ==> ((u, v) in pairs' <==> (u, v) in pairs || LinkEdge(def, l, u, v))
    ensures Collects(def, links + [l], [], pairs')
  {
    hide LinkEdge;
    hide NetEdge;
  }

  lemma CollectNet(def: GraphDef, nets: seq<NetData>, n: NetData, pairs: set<(Id, Id)>, pairs': set<(Id, Id)>)
    requires Collects(def, def.links, nets, pairs)
    requires forall u, v :: (u, v) in pairs' <==> (u, v) in pairs || NetEdge(n, u, v)
    ensures Collects(def, def.links, nets + [n], pairs')
  {
    hide LinkEdge;
    hide NetEdge;
  }

  /** Collapses every alias and net into direct node edges, in both directions. */
  method CollapsedEdges(def: GraphDef) returns (forward: Digraph, reverse: Digraph)
    ensures Mirrored(forward, reverse) && forward.Keys == def.nodes
    ensures forall u, v ::
            u in def.nodes && v in def.nodes ==> (v in forward[u] <==> Feeds(def, def.links, def.nets, u, v))
  {
    forward := map x | x in def.nodes :: {};
    reverse := map x | x in def.nodes :: {};
    assert Built(forward, reverse, def.nodes, {}) && Collects(def, [], [], {});
    hide *;
    ghost var pairs;
    forward, reverse, pairs := CollapseLinks(def, forward, reverse);
    forward, reverse, pairs := CollapseNets(def, forward, reverse, pairs);
    CollectedAll(def, forward, reverse, pairs);
  }

  method CollapseLinks(def: GraphDef, forward0: Digraph, reverse0: Digraph)
    returns (forward: Digraph, reverse: Digraph, ghost pairs: set<(Id, Id)>)
    requires Built(forward0, reverse0, def.nodes, {}) && Collects(def, [], [], {})
    ensures Built(forward, reverse, def.nodes, pairs) && Collects(def, def.links, [], pairs)
  {
    hide *;
    forward, reverse, pairs := forward0, reverse0, {};
    var index := BuildRerouteIndex(def);
    assert def.links[..0] == [];
    for i := 0 to |def.links|
      invariant Built(forward, reverse, def.nodes, pairs) && Collects(def, def.links[..i], [], pairs)
    {
      ghost var before := pairs;
      forward, reverse, pairs := AddLink(def, index, def.links[i], forward, reverse, pairs);
      CollectLink(def, def.links[..i], def.links[i], before, pairs);
      assert def.links[..i + 1] == def.links[..i] + [def.links[i]];
    }
    assert def.links[..|def.links|] == def.links;
  }

  method CollapseNets(def: GraphDef, forward0: Digraph, reverse0: Digraph, ghost pairs0: set<(Id, Id)>)
    returns (forward: Digraph, reverse: Digraph, ghost pairs: set<(Id, Id)>)
    requires Built(forward0, reverse0, def.nodes, pairs0) && Collects(def, def.links, [], pairs0)
    ensures Built(forward, reverse, def.nodes, pairs) && Collects(def, def.links, def.nets, pairs)
  {
    hide *;
    forward, reverse, pairs := forward0, reverse0, pairs0;
    assert def.nets[..0] == [];
    for i := 0 to |def.nets|
      invariant Built(forward, reverse, def.nodes, pairs) && Collects(def, def.links, def.nets[..i], pairs)
    {
      ghost var before := pairs;
      forward, reverse, pairs := AddNet(def.nets[i], forward, reverse, def.nodes, pairs);
      CollectNet(def, def.nets[..i], def.nets[i], before, pairs);
      assert def.nets[..i + 1] == def.nets[..i] + [def.nets[i]];
    }
    assert def.nets[..|def.nets|] == def.nets;
  }

  lemma CollectedAll(def: GraphDef, forward: Digraph, reverse: Digraph, pairs: set<(Id, Id)>)
    requires Built(forward, reverse, def.nodes, pairs) && Collects(def, def.links, def.nets, pairs)
    ensures Mirrored(forward, reverse) && forward.Keys == def.nodes
    ensures forall u, v ::
            u in def.nodes && v in def.nodes ==> (v in forward[u] <==> Feeds(def, def.links, def.nets, u, v))
  {
    hide Feeds;
    hide WellFormed;
  }

  method AddNet(net: NetData, forward: Digraph, reverse: Digraph, ghost nodes: set<Id>, ghost pairs: set<(Id, Id)>)
    returns (forward': Digraph, reverse': Digraph, ghost pairs': set<(Id, Id)>)
    requires Built(forward, reverse, nodes, pairs)
    ensures Built(forward', reverse', nodes, pairs')
    ensures forall u, v :: (u, v) in pairs' <==> (u, v) in pairs || NetEdge(net, u, v)
  {
    forward', reverse', pairs' := forward, reverse, pairs;
    for j := 0 to |net.sinks|
      invariant Built(forward', reverse', nodes, pairs')
      invariant forall u, v :: (u, v) in pairs' <==> (u, v) in pairs || NetEdge(net.(sinks := net.sinks[..j]), u, v)
    {
      forward', reverse' := AddEdge(forward', reverse', nodes, pairs', net.source.node, net.sinks[j].node);
      pairs' := pairs' + {(net.source.node, net.sinks[j].node)};
      assert net.sinks[..j + 1] == net.sinks[..j] + [net.sinks[j]];
    }
    assert net.(sinks := net.sinks[..|net.sinks|]) == net;
  }

  /** The digraph with its cyclic nodes: exactly those that reach themselves by a nonempty path. */
  method DirectedGraph(def: GraphDef) returns (forward: Digraph, reverse: Digraph, cyclicNodes: set<Id>)
    ensures Mirrored(forward, reverse) && forward.Keys == def.nodes
    ensures forall u, v ::
            u in def.nodes && v in def.nodes ==> (v in forward[u] <==> Feeds(def, def.links, def.nets, u, v))
    ensures forall x :: x in cyclicNodes <==> x in def.nodes && ReachesPlus(Succ(forward), x, x)
  {
    forward, reverse := CollapsedEdges(def);
    var pass := new TarjanPass(forward);
    pass.Run();
    cyclicNodes := pass.cyclicNodes;
  }

  // ---------------------------------------------------------------------
  // Closures

  ghost predicate ReachedFrom(g: Digraph, starts: set<Id>, x: Id) {
    exists s :: s in starts && Reaches(Succ(g), s, x)
  }

  /** Everything in `seen` is reachable, and only the queued vertices still have unseen successors. */
  ghost predicate Closing(edges: Digraph, starts: set<Id>, seen: set<Id>, queue: set<Id>) {
    && starts <= seen && queue <= seen <= starts + edges.Keys
    && (forall x {:trigger Succ(edges)(x)} :: x in seen - queue ==> Succ(edges)(x) <= seen)
    && (forall x :: x in seen ==> ReachedFrom(edges, starts, x))
  }

  lemma ClosingStart(edges: Digraph, starts: set<Id>)
    ensures Closing(edges, starts, starts, starts)
  {
    hide Reaches;
    forall s | s in starts
      ensures ReachedFrom(edges, starts, s)
    {
      Refl(Succ(edges), s);
    }
  }

  lemma ClosingStep(edges: Digraph, starts: set<Id>, seen: set<Id>, queue: set<Id>, x: Id, found: set<Id>)
    requires Closing(edges, starts, seen, queue) && WellFormed(edges) && x in queue && found == Succ(edges)(x) - seen
    ensures Closing(edges, starts, seen + found, queue - {x} + found)
  {
    hide Reaches;
    assert ReachedFrom(edges, starts, x);
    forall y | y in found
      ensures ReachedFrom(edges, starts, y)
    {
      var s :| s in starts && Reaches(Succ(edges), s, x);
      Snoc(Succ(edges), s, x, y);
    }
    hide ReachedFrom;
  }

  lemma ClosingShrinks(edges: Digraph, starts: set<Id>, seen: set<Id>, queue: set<Id>, x: Id, found: set<Id>)
    requires Closing(edges, starts, seen, queue) && WellFormed(edges) && x in queue && found == Succ(edges)(x) - seen
    ensures var all := starts + edges.Keys;
            |all - (seen + found)| < |all - seen|
            || (|all - (seen + found)| == |all - seen| && |queue - {x} + found| < |queue|)
  {
    FoundWithin(edges, starts, seen, queue, x);
    hide *;
    assert found !! seen;
    Progress(starts + edges.Keys, seen, queue, x, found);
  }

  lemma FoundWithin(edges: Digraph, starts: set<Id>, seen: set<Id>, queue: set<Id>, x: Id)
    requires Closing(edges, starts, seen, queue) && WellFormed(edges) && x in queue
    ensures Succ(edges)(x) - seen <= starts + edges.Keys
  {
    hide Reaches;
  }

  lemma Progress(all: set<Id>, seen: set<Id>, queue: set<Id>, x: Id, found: set<Id>)
    requires x in queue && found <= all && found !! seen
    ensures |all - (seen + found)| < |all - seen|
            || (|all - (seen + found)| == |all - seen| && |queue - {x} + found| < |queue|)
  {
    if found == {} {
      assert seen + found == seen && queue - {x} + found == queue - {x};
    } else {
      var y :| y in found;
      Subset(all - (seen + found), all - seen - {y});
    }
  }

  lemma ClosingDone(edges: Digraph, starts: set<Id>, seen: set<Id>)
    requires Closing(edges, starts, seen, {})
    ensures forall x :: x in seen <==> ReachedFrom(edges, starts, x)
  {
    hide Reaches;
    assert Closed(Succ(edges), seen) by { assert seen - {} == seen; }
    forall x | ReachedFrom(edges, starts, x)
      ensures x in seen
    {
      var s :| s in starts && Reaches(Succ(edges), s, x);
      Stays(Succ(edges), seen, s, x);
    }
  }

  /** Worklist closure: everything reachable from some start, the starts included. */
  method Reachable(starts: set<Id>, edges: Digraph) returns (seen: set<Id>)
    requires WellFormed(edges)
    ensures forall x :: x in seen <==> ReachedFrom(edges, starts, x)
  {
    hide Closing;
    hide ReachedFrom;
    hide WellFormed;
    hide Reaches;
    seen := starts;
    var queue := starts;
    ClosingStart(edges, starts);
    while queue != {}
      invariant Closing(edges, starts, seen, queue)
      decreases |starts + edges.Keys - seen|, |queue|
    {
      var x :| x in queue;
      var found := Succ(edges)(x) - seen;
      ClosingStep(edges, starts, seen, queue, x, found);
      ClosingShrinks(edges, starts, seen, queue, x, found);
      seen := seen + found;
      queue := queue - {x} + found;
    }
    ClosingDone(edges, starts, seen);
  }

  // ---------------------------------------------------------------------
  // First, last and between

  /** No selected node, itself included, lies strictly beyond `s`. */
  ghost predicate Extreme(g: Digraph, selected: set<Id>, s: Id) {
    s in selected && forall t :: t in selected ==> !ReachesPlus(Succ(g), s, t)
  }

  /** The filter behind `first` and `last`: nodes with no selected node in their strict closure. */
  method Extremes(g: Digraph, selected: set<Id>) returns (extremes: set<Id>)
    requires WellFormed(g)
    ensures forall s :: s in extremes <==> Extreme(g, selected, s)
  {
    hide Reaches;
    extremes := {};
    var rest := selected;
    while rest != {}
      invariant rest <= selected
      invariant forall s :: s in extremes <==> s in selected - rest && Extreme(g, selected, s)
      decreases |rest|
    {
      var s :| s in rest;
      rest := rest - {s};
      var closure := Reachable(Succ(g)(s), g);
      StrictClosure(g, s, closure);
      if selected !! closure {
        extremes := extremes + {s};
      }
    }
  }

  lemma StrictClosure(g: Digraph, s: Id, closure: set<Id>)
    requires forall x :: x in closure <==> ReachedFrom(g, Succ(g)(s), x)
    ensures forall t :: t in closure <==> ReachesPlus(Succ(g), s, t)
  {
    hide Reaches;
  }

  /** From any selected node that is on no cycle with the selection, an extreme one is reached. */
  lemma {:induction false} ExtremeBeyond(g: Digraph, selected: set<Id>, s: Id) returns (e: Id)
    requires s in selected && forall x :: x in selected ==> !ReachesPlus(Succ(g), x, x)
    ensures Extreme(g, selected, e) && Reaches(Succ(g), s, e)
    decreases |Beyond(g, selected, s)|
  {
    hide Reaches;
    var next := Succ(g);
    if Beyond(g, selected, s) == {} {
      Refl(next, s);
      e := s;
      assert forall t :: t in selected ==> t !in Beyond(g, selected, s);
    } else {
      var t :| t in Beyond(g, selected, s);
      forall u | u in Beyond(g, selected, t)
        ensures u in Beyond(g, selected, s)
      {
        PlusReaches(next, t, u);
        PlusTrans(next, s, t, u);
      }
      assert t in Beyond(g, selected, s) && t !in Beyond(g, selected, t);
      Subset(Beyond(g, selected, t), Beyond(g, selected, s) - {t});
      e := ExtremeBeyond(g, selected, t);
      PlusReaches(next, s, t);
      Trans(next, s, t, e);
    }
  }

  ghost function Beyond(g: Digraph, selected: set<Id>, s: Id): set<Id> {
    set t | t in selected && ReachesPlus(Succ(g), s, t)
  }

  lemma {:induction false} ReverseWalk(forward: Digraph, reverse: Digraph, a: Id, p: seq<Id>, b: Id)
    requires Mirrored(forward, reverse) && Walk(Succ(forward), a, p, b)
    ensures Reaches(Succ(reverse), b, a)
    decreases |p|
  {
    if p == [] {
      Refl(Succ(reverse), a);
    } else {
      ReverseWalk(forward, reverse, p[0], p[1..], b);
      assert a in Succ(reverse)(p[0]);
      Snoc(Succ(reverse), b, p[0], a);
    }
  }

  lemma Reverse(forward: Digraph, reverse: Digraph, a: Id, b: Id)
    requires Mirrored(forward, reverse)
    ensures Reaches(Succ(forward), a, b) <==> Reaches(Succ(reverse), b, a)
  {
    if Reaches(Succ(forward), a, b) {
      var p :| Walk(Succ(forward), a, p, b);
      ReverseWalk(forward, reverse, a, p, b);
    }
    if Reaches(Succ(reverse), b, a) {
      var p :| Walk(Succ(reverse), b, p, a);
      ReverseWalk(reverse, forward, b, p, a);
    }
  }

  lemma ReverseCycle(forward: Digraph, reverse: Digraph, x: Id)
    requires Mirrored(forward, reverse) && ReachesPlus(Succ(reverse), x, x)
    ensures ReachesPlus(Succ(forward), x, x)
  {
    hide Reaches;
    var c :| c in Succ(reverse)(x) && Reaches(Succ(reverse), c, x);
    Reverse(forward, reverse, x, c);
    assert x in Succ(forward)(c);
    Edge(Succ(forward), c, x);
    PlusTrans(Succ(forward), x, c, x);
  }

  /** Nodes on some path from a first to a last selected node. */
  ghost predicate Between(forward: Digraph, reverse: Digraph, selected: set<Id>, x: Id) {
    exists f, l :: Extreme(reverse, selected, f) && Extreme(forward, selected, l)
                && Reaches(Succ(forward), f, x) && Reaches(Succ(forward), x, l)
  }

  /** When no selected node is cyclic, every selected node lies between a first and a last one. */
  lemma SelectedBetween(forward: Digraph, reverse: Digraph, selected: set<Id>, s: Id)
    requires Mirrored(forward, reverse) && s in selected
    requires forall x :: x in selected ==> !Cyclic(forward, x)
    ensures Between(forward, reverse, selected, s)
  {
    hide Reaches;
    forall x | x in selected
      ensures !ReachesPlus(Succ(reverse), x, x)
    {
      if ReachesPlus(Succ(reverse), x, x) {
        ReverseCycle(forward, reverse, x);
      }
    }
    var f := ExtremeBeyond(reverse, selected, s);
    var l := ExtremeBeyond(forward, selected, s);
    Reverse(forward, reverse, f, s);
  }

  /** Every directed path between selected nodes stays inside the selection. */
  ghost predicate Convex(g: Digraph, selected: set<Id>) {
    forall a, x, b ::
      a in selected && b in selected && Reaches(Succ(g), a, x) && Reaches(Succ(g), x, b) ==> x in selected
  }

  /** Between-ness extends along paths whose ends are between. */
  lemma BetweenInner(forward: Digraph, reverse: Digraph, selected: set<Id>, a: Id, x: Id, b: Id)
    requires Between(forward, reverse, selected, a) && Between(forward, reverse, selected, b)
    requires Reaches(Succ(forward), a, x) && Reaches(Succ(forward), x, b)
    ensures Between(forward, reverse, selected, x)
  {
    hide Reaches;
    hide Extreme;
    var f, l' :| Extreme(reverse, selected, f) && Extreme(forward, selected, l')
      && Reaches(Succ(forward), f, a) && Reaches(Succ(forward), a, l');
    var f', l :| Extreme(reverse, selected, f') && Extreme(forward, selected, l)
      && Reaches(Succ(forward), f', b) && Reaches(Succ(forward), b, l);
    Trans(Succ(forward), f, a, x);
    Trans(Succ(forward), x, b, l);
  }

  lemma ConvexBetween(forward: Digraph, reverse: Digraph, selected: set<Id>, x: Id)
    requires Convex(forward, selected) && Between(forward, reverse, selected, x)
    ensures x in selected
  {
    hide Reaches;
  }

  /** On an acyclic selection, `between` adds nothing to it exactly when the selection is convex. */
  lemma BetweenIsConvex(forward: Digraph, reverse: Digraph, selected: set<Id>)
    requires Mirrored(forward, reverse)
    requires forall x :: x in selected ==> !Cyclic(forward, x)
    ensures (forall x :: Between(forward, reverse, selected, x) <==> x in selected) <==> Convex(forward, selected)
  {
    hide Reaches;
    hide Between;
    hide Cyclic;
    hide Mirrored;
    forall s | s in selected
      ensures Between(forward, reverse, selected, s)
    {
      SelectedBetween(forward, reverse, selected, s);
    }
    if Convex(forward, selected) {
      forall x | Between(forward, reverse, selected, x)
        ensures x in selected
      {
        ConvexBetween(forward, reverse, selected, x);
      }
    }
    if forall x :: Between(forward, reverse, selected, x) <==> x in selected {
      forall a, x, b | a in selected && b in selected && Reaches(Succ(forward), a, x) && Reaches(Succ(forward), x, b)
        ensures x in selected
      {
        BetweenInner(forward, reverse, selected, a, x, b);
      }
    }
  }

  // ---------------------------------------------------------------------
  // Weak connectivity and contiguity

  /** Edges of either direction, inside `s` only. */
  function Adjacent(forward: Digraph, reverse: Digraph, s: set<Id>): Digraph
    requires Mirrored(forward, reverse) && s <= forward.Keys
  {
    map x | x in s :: (forward[x] + reverse[x]) * s
  }

  /** Any two members are joined by a chain of edges taken in either direction inside `s`. */
  ghost predicate WeaklyConnected(forward: Digraph, reverse: Digraph, s: set<Id>)
    requires Mirrored(forward, reverse) && s <= forward.Keys
  {
    forall a, b :: a in s && b in s ==> Reaches(Succ(Adjacent(forward, reverse, s)), a, b)
  }

  lemma AdjacentSymmetric(forward: Digraph, reverse: Digraph, s: set<Id>)
    requires Mirrored(forward, reverse) && s <= forward.Keys
    ensures Mirrored(Adjacent(forward, reverse, s), Adjacent(forward, reverse, s))
  {
  }

  /** Reaching everything from one member is reaching everything from each. */
  lemma OneStartSuffices(forward: Digraph, reverse: Digraph, s: set<Id>, start: Id, seen: set<Id>)
    requires Mirrored(forward, reverse) && s <= forward.Keys && start in s
    requires forall x :: x in seen <==> ReachedFrom(Adjacent(forward, reverse, s), {start}, x)
    ensures seen <= s && (|seen| == |s| <==> WeaklyConnected(forward, reverse, s))
  {
    hide Reaches;
    var g := Adjacent(forward, reverse, s);
    AdjacentSymmetric(forward, reverse, s);
    hide Adjacent;
    forall x | x in seen
      ensures x in s && Reaches(Succ(g), start, x)
    {
      InsideAdjacent(forward, reverse, s, start, x);
    }
    if |seen| == |s| {
      SameSize(seen, s);
      forall a, b | a in s && b in s
        ensures Reaches(Succ(g), a, b)
      {
        Reverse(g, g, start, a);
        Trans(Succ(g), a, start, b);
      }
    }
    if WeaklyConnected(forward, reverse, s) {
      forall x | x in s
        ensures x in seen
      {
        assert Reaches(Succ(g), start, x);
        assert start in {start};
      }
      assert seen == s;
    }
  }

  lemma InsideAdjacent(forward: Digraph, reverse: Digraph, s: set<Id>, start: Id, x: Id)
    requires Mirrored(forward, reverse) && s <= forward.Keys && start in s
    requires Reaches(Succ(Adjacent(forward, reverse, s)), start, x)
    ensures x in s
  {
    Stays(Succ(Adjacent(forward, reverse, s)), s, start, x);
  }

  lemma SameSize<T>(a: set<T>, b: set<T>)
    requires a <= b && |a| == |b|
    ensures a == b
  {
    assert b == a + (b - a);
  }

  datatype Analysis = Analysis(
    selected: set<Id>,
    first: set<Id>,
    last: set<Id>,
    sinks: set<Id>,
    upstream: set<Id>,
    downstream: set<Id>,
    between: set<Id>,
    contiguous: bool,
    cyclicNodes: set<Id>)

  /** What contiguity means: several acyclic nodes, convex, and joined to one another. */
  ghost predicate Contiguous(forward: Digraph, reverse: Digraph, selected: set<Id>)
    requires Mirrored(forward, reverse) && selected <= forward.Keys
  {
    && |selected| > 1
    && (forall x :: x in selected ==> !Cyclic(forward, x))
    && Convex(forward, selected)
    && WeaklyConnected(forward, reverse, selected)
  }

  /** First, last, the closures from them, and between, each exactly. */
  ghost predicate Placed(forward: Digraph, reverse: Digraph, a: Analysis) {
    && (forall s :: s in a.first <==> Extreme(reverse, a.selected, s))
    && (forall s :: s in a.last <==> Extreme(forward, a.selected, s))
    && (forall x :: x in a.between <==> Between(forward, reverse, a.selected, x))
    && (forall x :: x in a.upstream <==> ReachedFrom(reverse, a.first, x))
    && (forall x :: x in a.downstream <==> ReachedFrom(forward, a.last, x))
  }

  /** The analysis of a selection over the node digraph. */
  method AnalyzeSelection(forward: Digraph, reverse: Digraph, cyclicNodes: set<Id>, selection: set<Id>)
    returns (a: Analysis)
    requires Mirrored(forward, reverse)
    requires forall x :: x in cyclicNodes <==> x in forward && Cyclic(forward, x)
    ensures a.selected == selection * forward.Keys && a.cyclicNodes == cyclicNodes
    ensures Placed(forward, reverse, a)
    ensures forall s :: s in a.sinks <==> s in a.selected && forward[s] !! a.selected
    ensures a.contiguous <==> Contiguous(forward, reverse, a.selected)
  {
    hide *;
    var selected := selection * forward.Keys;
    if selected == {} {
      NothingSelected(forward, reverse, cyclicNodes);
      return Analysis({}, {}, {}, {}, {}, {}, {}, false, cyclicNodes);
    }
    var sinks := set s | s in selected && forward[s] !! selected;
    var first, last, upstream, downstream, between := Place(forward, reverse, selected);
    var contiguous := IsContiguous(forward, reverse, cyclicNodes, selected, between);
    a := Analysis(selected, first, last, sinks, upstream, downstream, between, contiguous, cyclicNodes);
    PlacedAnalysis(forward, reverse, a);
  }

  /** First, last, their closures, and the nodes between them. */
  method Place(forward: Digraph, reverse: Digraph, selected: set<Id>)
    returns (first: set<Id>, last: set<Id>, upstream: set<Id>, downstream: set<Id>, between: set<Id>)
    requires Mirrored(forward, reverse) && selected <= forward.Keys
    ensures forall s :: s in first <==> Extreme(reverse, selected, s)
    ensures forall s :: s in last <==> Extreme(forward, selected, s)
    ensures forall x :: x in between <==> Between(forward, reverse, selected, x)
    ensures forall x :: x in upstream <==> ReachedFrom(reverse, first, x)
    ensures forall x :: x in downstream <==> ReachedFrom(forward, last, x)
    ensures between <= forward.Keys
  {
    MirroredParts(forward, reverse);
    hide *;
    first := Extremes(reverse, selected);
    last := Extremes(forward, selected);
    upstream := Reachable(first, reverse);
    downstream := Reachable(last, forward);
    var fromFirst := Reachable(first, forward);
    var toLast := Reachable(last, reverse);
    between := fromFirst * toLast;
    BetweenIsProduct(forward, reverse, selected, first, last, fromFirst, toLast);
  }

  method IsContiguous(forward: Digraph, reverse: Digraph, cyclicNodes: set<Id>, selected: set<Id>, between: set<Id>)
    returns (contiguous: bool)
    requires Mirrored(forward, reverse) && selected <= forward.Keys && between <= forward.Keys
    requires forall x :: x in cyclicNodes <==> x in forward && Cyclic(forward, x)
    requires forall x :: x in between <==> Between(forward, reverse, selected, x)
    ensures contiguous <==> Contiguous(forward, reverse, selected)
  {
    hide *;
    var exact := |between| == |selected| && between <= selected;
    var betweenIsAcyclic := between !! cyclicNodes;
    var weaklyConnected := false;
    if |between| > 1 {
      weaklyConnected := CheckConnected(forward, reverse, between);
    }
    ContiguityExact(forward, reverse, cyclicNodes, selected, between, weaklyConnected);
    contiguous := |selected| > 1 && exact && weaklyConnected && betweenIsAcyclic;
  }

  lemma PlacedAnalysis(forward: Digraph, reverse: Digraph, a: Analysis)
    requires forall s :: s in a.first <==> Extreme(reverse, a.selected, s)
    requires forall s :: s in a.last <==> Extreme(forward, a.selected, s)
    requires forall x :: x in a.between <==> Between(forward, reverse, a.selected, x)
    requires forall x :: x in a.upstream <==> ReachedFrom(reverse, a.first, x)
    requires forall x :: x in a.downstream <==> ReachedFrom(forward, a.last, x)
    ensures Placed(forward, reverse, a)
  {
  }

  lemma MirroredParts(forward: Digraph, reverse: Digraph)
    requires Mirrored(forward, reverse)
    ensures WellFormed(forward) && WellFormed(reverse)
  {
  }

  lemma NothingSelected(forward: Digraph, reverse: Digraph, cyclicNodes: set<Id>)
    requires Mirrored(forward, reverse)
    ensures !Contiguous(forward, reverse, {})
    ensures Placed(forward, reverse, Analysis({}, {}, {}, {}, {}, {}, {}, false, cyclicNodes))
  {
  }

  lemma BetweenIsProduct(forward: Digraph, reverse: Digraph, selected: set<Id>, first: set<Id>, last: set<Id>,
                         fromFirst: set<Id>, toLast: set<Id>)
    requires Mirrored(forward, reverse) && selected <= forward.Keys
    requires forall s :: s in first <==> Extreme(reverse, selected, s)
    requires forall s :: s in last <==> Extreme(forward, selected, s)
    requires forall x :: x in fromFirst <==> ReachedFrom(forward, first, x)
    requires forall x :: x in toLast <==> ReachedFrom(reverse, last, x)
    ensures forall x :: x in fromFirst * toLast <==> Between(forward, reverse, selected, x)
    ensures fromFirst * toLast <= forward.Keys
  {
    hide Reaches;
    hide Extreme;
    forall x
      ensures x in fromFirst * toLast <==> Between(forward, reverse, selected, x)
    {
      ProductMember(forward, reverse, selected, first, last, x);
    }
    forall x | x in fromFirst * toLast
      ensures x in forward.Keys
    {
      var f :| f in first && Reaches(Succ(forward), f, x);
      FirstIsNode(reverse, selected, f);
      Stays(Succ(forward), forward.Keys, f, x);
    }
  }

  lemma FirstIsNode(g: Digraph, selected: set<Id>, f: Id)
    requires Extreme(g, selected, f)
    ensures f in selected
  {
  }

  lemma ProductMember(forward: Digraph, reverse: Digraph, selected: set<Id>, first: set<Id>, last: set<Id>, x: Id)
    requires Mirrored(forward, reverse)
    requires forall s :: s in first <==> Extreme(reverse, selected, s)
    requires forall s :: s in last <==> Extreme(forward, selected, s)
    ensures ReachedFrom(forward, first, x) && ReachedFrom(reverse, last, x) <==> Between(forward, reverse, selected, x)
  {
    hide Reaches;
    hide Extreme;
    if ReachedFrom(forward, first, x) && ReachedFrom(reverse, last, x) {
      var f :| f in first && Reaches(Succ(forward), f, x);
      var l :| l in last && Reaches(Succ(reverse), l, x);
      Reverse(forward, reverse, x, l);
    }
    if Between(forward, reverse, selected, x) {
      var f, l :| Extreme(reverse, selected, f) && Extreme(forward, selected, l)
        && Reaches(Succ(forward), f, x) && Reaches(Succ(forward), x, l);
      Reverse(forward, reverse, x, l);
      assert f in first && l in last;
    }
  }

  method CheckConnected(forward: Digraph, reverse: Digraph, s: set<Id>) returns (connected: bool)
    requires Mirrored(forward, reverse) && s <= forward.Keys && s != {}
    ensures connected <==> WeaklyConnected(forward, reverse, s)
  {
    var start :| start in s;
    AdjacentSymmetric(forward, reverse, s);
    var seen := Reachable({start}, Adjacent(forward, reverse, s));
    OneStartSuffices(forward, reverse, s, start, seen);
    connected := |seen| == |s|;
  }

  lemma ContiguityExact(forward: Digraph, reverse: Digraph, cyclicNodes: set<Id>, selected: set<Id>, between: set<Id>,
                        connected: bool)
    requires Mirrored(forward, reverse) && selected <= forward.Keys && between <= forward.Keys
    requires forall x :: x in cyclicNodes <==> x in forward && Cyclic(forward, x)
    requires forall x :: x in between <==> Between(forward, reverse, selected, x)
    requires |between| > 1 ==> (connected <==> WeaklyConnected(forward, reverse, between))
    ensures (|selected| > 1 && |between| == |selected| && between <= selected && connected && between !! cyclicNodes)
            <==> Contiguous(forward, reverse, selected)
  {
    hide Between;
    hide Cyclic;
    hide Convex;
    hide WeaklyConnected;
    hide Mirrored;
    if |between| == |selected| && between <= selected {
      SameSize(between, selected);
    }
    if forall x :: x in selected ==> !Cyclic(forward, x) {
      BetweenIsConvex(forward, reverse, selected);
      if Convex(forward, selected) {
        assert between == selected;
      }
    }
  }

  /** The whole analysis of a selection in a definition. */
  method AnalyzeSelectionExecution(def: GraphDef, selection: set<Id>)
    returns (a: Analysis, ghost forward: Digraph, ghost reverse: Digraph)
    ensures Mirrored(forward, reverse) && forward.Keys == def.nodes && a.selected == selection * def.nodes
    ensures forall u, v ::
            u in def.nodes && v in def.nodes ==> (v in forward[u] <==> Feeds(def, def.links, def.nets, u, v))
    ensures forall x :: x in a.cyclicNodes <==> x in def.nodes && Cyclic(forward, x)
    ensures Placed(forward, reverse, a)
    ensures forall s :: s in a.sinks <==> s in a.selected && forward[s] !! a.selected
    ensures a.contiguous <==> Contiguous(forward, reverse, a.selected)
  {
    var f, r, cyclicNodes := DirectedGraph(def);
    hide Feeds;
    forward, reverse := f, r;
    a := AnalyzeSelection(f, r, cyclicNodes, selection);
  }
}
