/**
 * The inputs a value source feeds: a forward walk over fan-outs, and its agreement with
 * the backward walk that lists the producers of an input.
 */
module ValueSources {
  import opened Graphs
  import opened Identity
  import opened Reroute
  import opened AllProducers

  /** Where a link leads on: an input, a reroute, or the output of the selector whose candidate it feeds. */
  function Target(to: LinkEndpoint): Option<LinkEndpoint> {
    match to
    case PortEndpoint(_) => Some(to)
    case RerouteRef(_) => Some(to)
    case SelectorRef(s, c) => if c.Some? then Some(SelectorRef(s, None)) else None
    case _ => None
  }

  predicate IsJunction(e: LinkEndpoint) {
    e.RerouteRef? || (e.SelectorRef? && e.candidate.None?)
  }

  ghost function Forward(def: GraphDef): LinkEndpoint -> set<LinkEndpoint> {
    k => if IsJunction(k) then set l | l in SuccessorsOf(def.links, k) && Target(l.to).Some? :: Target(l.to).value
      else {}
  }

  /** `e` is fed by some link out of the value source. */
  ghost predicate Fed(def: GraphDef, valueSource: Id, e: LinkEndpoint) {
    exists l :: l in def.links && l.from == ValueSourceRef(valueSource) && Target(l.to).Some?
             && Reaches(Forward(def), Target(l.to).value, e)
  }

  /** The walk's variables as a set: junctions entered and inputs collected. */
  ghost function Covered(visited: set<LinkEndpoint>, consumers: seq<PortRef>): set<LinkEndpoint> {
    visited + set p | p in consumers :: PortEndpoint(p)
  }

  ghost function Entered(reroutes: set<Id>, selectors: set<Id>): set<LinkEndpoint> {
    (set r | r in reroutes :: RerouteRef(r)) + (set s | s in selectors :: SelectorRef(s, None))
  }

  lemma EnteredMore(reroutes: set<Id>, selectors: set<Id>, id: Id)
    ensures Entered(reroutes + {id}, selectors) == Entered(reroutes, selectors) + {RerouteRef(id)}
    ensures Entered(reroutes, selectors + {id}) == Entered(reroutes, selectors) + {SelectorRef(id, None)}
    ensures (RerouteRef(id) in Entered(reroutes, selectors) <==> id in reroutes)
    ensures (SelectorRef(id, None) in Entered(reroutes, selectors) <==> id in selectors)
  {
  }

  /** Junctions entered and left have all their targets covered; `open` are still being walked. */
  ghost predicate Swept(def: GraphDef, visited: set<LinkEndpoint>, consumers: seq<PortRef>, open: set<LinkEndpoint>) {
    && open <= visited
    && (forall k {:trigger Forward(def)(k)} :: k in visited - open ==> Forward(def)(k) <= Covered(visited, consumers))
  }

  ghost predicate Sound(def: GraphDef, valueSource: Id, visited: set<LinkEndpoint>, consumers: seq<PortRef>) {
    && (forall e :: e in Covered(visited, consumers) ==> Fed(def, valueSource, e))
    && (forall k :: k in visited ==> IsJunction(k))
  }

  ghost function Junctions(def: GraphDef): set<LinkEndpoint> {
    set l | l in def.links && Target(l.to).Some? :: Target(l.to).value
  }

  ghost predicate Ok(def: GraphDef, valueSource: Id, visited: set<LinkEndpoint>, consumers: seq<PortRef>,
                     open: set<LinkEndpoint>)
  {
    Swept(def, visited, consumers, open) && Sound(def, valueSource, visited, consumers) && visited <= Junctions(def)
  }

  lemma CoveredMore(visited: set<LinkEndpoint>, consumers: seq<PortRef>, k: LinkEndpoint)
    ensures Covered(visited + {k}, consumers) == Covered(visited, consumers) + {k}
  {
  }

  lemma Enter(def: GraphDef, valueSource: Id, visited: set<LinkEndpoint>, consumers: seq<PortRef>,
              open: set<LinkEndpoint>, k: LinkEndpoint)
    requires Ok(def, valueSource, visited, consumers, open) && k !in visited && IsJunction(k) && k in Junctions(def)
    requires Fed(def, valueSource, k)
    ensures Ok(def, valueSource, visited + {k}, consumers, open + {k})
    ensures Covered(visited, consumers) <= Covered(visited + {k}, consumers)
    ensures |Junctions(def) - (visited + {k})| < |Junctions(def) - visited|
  {
    hide Fed;
    hide Junctions;
    hide Covered;
    hide Forward;
    CoveredMore(visited, consumers, k);
    KeysShrink(Junctions(def), visited, k);
  }

  lemma Leave(def: GraphDef, valueSource: Id, visited: set<LinkEndpoint>, consumers: seq<PortRef>,
              open: set<LinkEndpoint>, k: LinkEndpoint)
    requires Ok(def, valueSource, visited, consumers, open + {k}) && Forward(def)(k) <= Covered(visited, consumers)
    ensures Ok(def, valueSource, visited, consumers, open)
  {
  }

  lemma Collect(def: GraphDef, valueSource: Id, visited: set<LinkEndpoint>, consumers: seq<PortRef>,
                open: set<LinkEndpoint>, p: PortRef)
    requires Ok(def, valueSource, visited, consumers, open) && Fed(def, valueSource, PortEndpoint(p))
    ensures Ok(def, valueSource, visited, consumers + [p], open)
    ensures Covered(visited, consumers + [p]) == Covered(visited, consumers) + {PortEndpoint(p)}
  {
    hide Fed;
    hide Junctions;
    assert Covered(visited, consumers + [p]) == Covered(visited, consumers) + {PortEndpoint(p)};
    hide Covered;
  }

  /** Whatever a fed junction leads to is fed too. */
  lemma FedOnward(def: GraphDef, valueSource: Id, k: LinkEndpoint, l: LinkData)
    requires Fed(def, valueSource, k) && IsJunction(k) && l in def.links && l.from == k && Target(l.to).Some?
    ensures Fed(def, valueSource, Target(l.to).value) && Target(l.to).value in Junctions(def)
    ensures Target(l.to).value in Forward(def)(k)
  {
    hide Reaches;
    var l0 :| l0 in def.links && l0.from == ValueSourceRef(valueSource) && Target(l0.to).Some?
      && Reaches(Forward(def), Target(l0.to).value, k);
    Snoc(Forward(def), Target(l0.to).value, k, Target(l.to).value);
  }

  class ConsumerWalk {
    const def: GraphDef
    const index: Option<RerouteIndex>
    ghost const valueSource: Id
    var visitedReroutes: set<Id>
    var visitedSelectors: set<Id>
    var consumers: seq<PortRef>

    ghost function Visited(): set<LinkEndpoint>
      reads this
    {
      Entered(visitedReroutes, visitedSelectors)
    }

    ghost predicate Valid(open: set<LinkEndpoint>)
      reads this
    {
      (index.Some? ==> Indexes(index.value, def)) && Ok(def, valueSource, Visited(), consumers, open)
    }

    ghost function Reached(): set<LinkEndpoint>
      reads this
    {
      Covered(Visited(), consumers)
    }

    constructor (def: GraphDef, index: Option<RerouteIndex>, ghost valueSource: Id)
      requires index.Some? ==> Indexes(index.value, def)
      ensures Valid({}) && this.def == def && this.valueSource == valueSource && consumers == []
    {
      this.def, this.index, this.valueSource := def, index, valueSource;
      visitedReroutes, visitedSelectors, consumers := {}, {}, [];
      new;
      assert Visited() == {};
      assert Covered({}, []) == {};
    }

    /** Follows one link target that the value source feeds. */
    method Follow(to: LinkEndpoint, ghost open: set<LinkEndpoint>)
      requires Valid(open)
      requires Target(to).Some? ==> Fed(def, valueSource, Target(to).value) && Target(to).value in Junctions(def)
      modifies this
      decreases |Junctions(def) - Visited()|, 1
      ensures Valid(open) && old(Reached()) <= Reached() && old(Visited()) <= Visited()
      ensures Target(to).Some? ==> Target(to).value in Reached()
    {
      hide Fed;
      hide Ok;
      hide Junctions;
      hide Valid;
      hide Covered;
      hide Reached;
      match to {
        case RerouteRef(r) =>
          if r in visitedReroutes {
            InVisited(to);
            return;
          }
          EnterReroute(r, open);
          hide Visited;
          Spread(to, open);
          InVisited(to);
        case SelectorRef(s, Some(c)) =>
          if s in visitedSelectors {
            InVisited(SelectorRef(s, None));
            return;
          }
          EnterSelector(s, open);
          hide Visited;
          Spread(SelectorRef(s, None), open);
          InVisited(SelectorRef(s, None));
        case PortEndpoint(ref) =>
          CollectInput(ref, open);
        case _ =>
          return;
      }
    }

    lemma InVisited(k: LinkEndpoint)
      requires k in Visited()
      ensures k in Reached()
    {
    }

    method EnterReroute(r: Id, ghost open: set<LinkEndpoint>)
      requires Valid(open) && r !in visitedReroutes && Fed(def, valueSource, RerouteRef(r))
               && RerouteRef(r) in Junctions(def)
      modifies `visitedReroutes
      ensures visitedReroutes == old(visitedReroutes) + {r} && Visited() == old(Visited()) + {RerouteRef(r)}
      ensures Valid(open + {RerouteRef(r)}) && old(Reached()) <= Reached()
      ensures |Junctions(def) - Visited()| < |Junctions(def) - old(Visited())|
    {
      hide Fed;
      hide Ok;
      hide Junctions;
      hide Covered;
      hide Entered;
      EnteredMore(visitedReroutes, visitedSelectors, r);
      Enter(def, valueSource, Visited(), consumers, open, RerouteRef(r));
      visitedReroutes := visitedReroutes + {r};
    }

    method EnterSelector(s: Id, ghost open: set<LinkEndpoint>)
      requires Valid(open) && s !in visitedSelectors && Fed(def, valueSource, SelectorRef(s, None))
               && SelectorRef(s, None) in Junctions(def)
      modifies `visitedSelectors
      ensures visitedSelectors == old(visitedSelectors) + {s} && Visited() == old(Visited()) + {SelectorRef(s, None)}
      ensures Valid(open + {SelectorRef(s, None)}) && old(Reached()) <= Reached()
      ensures |Junctions(def) - Visited()| < |Junctions(def) - old(Visited())|
    {
      hide Fed;
      hide Ok;
      hide Junctions;
      hide Covered;
      hide Entered;
      EnteredMore(visitedReroutes, visitedSelectors, s);
      Enter(def, valueSource, Visited(), consumers, open, SelectorRef(s, None));
      visitedSelectors := visitedSelectors + {s};
    }

    method CollectInput(ref: PortRef, ghost open: set<LinkEndpoint>)
      requires Valid(open) && Fed(def, valueSource, PortEndpoint(ref))
      modifies `consumers
      ensures consumers == old(consumers) + [ref] && Visited() == old(Visited())
      ensures Valid(open) && Reached() == old(Reached()) + {PortEndpoint(ref)}
    {
      hide Fed;
      hide Junctions;
      Collect(def, valueSource, Visited(), consumers, open, ref);
      hide Ok;
      hide Covered;
      consumers := consumers + [ref];
      assert Visited() == old(Visited());
    }

    /** Follows every link out of a junction just entered. */
    method Spread(k: LinkEndpoint, ghost open: set<LinkEndpoint>)
      requires Valid(open + {k}) && IsJunction(k) && Fed(def, valueSource, k)
      modifies this
      decreases |Junctions(def) - Visited()|, 2
      ensures Valid(open) && old(Reached()) <= Reached() && old(Visited()) <= Visited()
    {
      hide Fed;
      hide Ok;
      hide Junctions;
      hide Covered;
      hide Visited;
      var links := JunctionSuccessors(k);
      for i := 0 to |links|
        invariant Valid(open + {k}) && old(Reached()) <= Reached() && old(Visited()) <= Visited()
        invariant forall j :: 0 <= j < i && Target(links[j].to).Some? ==> Target(links[j].to).value in Reached()
      {
        if Target(links[i].to).Some? {
          assert links[i] in links;
          FedOnward(def, valueSource, k, links[i]);
        }
        Bigger(Junctions(def), old(Visited()), Visited());
        ghost var before := Reached();
        Follow(links[i].to, open + {k});
        assert before <= Reached();
      }
      hide Reached;
      SpreadDone(k, open, links);
    }

    lemma SpreadDone(k: LinkEndpoint, open: set<LinkEndpoint>, links: seq<LinkData>)
      requires Valid(open + {k}) && links == SuccessorsOf(def.links, k) && IsJunction(k)
      requires forall j :: 0 <= j < |links| && Target(links[j].to).Some? ==> Target(links[j].to).value in Reached()
      ensures Valid(open)
    {
      hide Ok;
      hide SuccessorsOf;
      assert Forward(def)(k) <= Reached();
      Leave(def, valueSource, Visited(), consumers, open, k);
    }

    /** The fan-out of a junction, by index or by scan. */
    method JunctionSuccessors(k: LinkEndpoint) returns (links: seq<LinkData>)
      requires (index.Some? ==> Indexes(index.value, def)) && IsJunction(k)
      ensures links == SuccessorsOf(def.links, k)
    {
      if index.Some? {
        return if k.RerouteRef? then GetList(index.value.successorsOf, k.reroute)
               else GetList(index.value.selectorSuccessorsOf, k.selector);
      }
      links := LinksFrom(def, k);
    }
  }

  lemma Bigger(all: set<LinkEndpoint>, before: set<LinkEndpoint>, now: set<LinkEndpoint>)
    requires before <= now
    ensures |all - now| <= |all - before|
  {
    assert all - before == (all - now) + ((all - before) - (all - now));
  }

  /** The scan for the links out of one endpoint, in document order. */
  method LinksFrom(def: GraphDef, from: LinkEndpoint) returns (links: seq<LinkData>)
    ensures links == SuccessorsOf(def.links, from)
  {
    links := [];
    for i := 0 to |def.links|
      invariant links == SuccessorsOf(def.links[..i], from)
    {
      if def.links[i].from == from {
        links := links + [def.links[i]];
      }
      assert def.links[..i + 1][..i] == def.links[..i];
    }
    assert def.links[..|def.links|] == def.links;
  }

  /** Exactly the inputs that links out of the value source lead to through reroutes and selectors. */
  method ValueSourceConsumersOf(def: GraphDef, valueSource: Id, index: Option<RerouteIndex>)
    returns (consumers: seq<PortRef>)
    requires index.Some? ==> Indexes(index.value, def)
    ensures forall p :: p in consumers <==> Fed(def, valueSource, PortEndpoint(p))
  {
    hide Fed;
    hide Ok;
    hide Junctions;
    hide Covered;
    var walk := new ConsumerWalk(def, index, valueSource);
    var links := LinksFrom(def, ValueSourceRef(valueSource));
    for i := 0 to |links|
      invariant walk.Valid({}) && walk.def == def && walk.valueSource == valueSource && fresh(walk)
      invariant forall j :: 0 <= j < i && Target(links[j].to).Some? ==> Target(links[j].to).value in walk.Reached()
    {
      if Target(links[i].to).Some? {
        assert links[i] in links;
        FedDirectly(def, valueSource, links[i]);
      }
      walk.Follow(links[i].to, {});
    }
    consumers := walk.consumers;
    WalkComplete(def, valueSource, links, walk.Visited(), consumers);
  }

  lemma FedDirectly(def: GraphDef, valueSource: Id, l: LinkData)
    requires l in def.links && l.from == ValueSourceRef(valueSource) && Target(l.to).Some?
    ensures Fed(def, valueSource, Target(l.to).value) && Target(l.to).value in Junctions(def)
  {
    Refl(Forward(def), Target(l.to).value);
  }

  lemma WalkComplete(def: GraphDef, valueSource: Id, links: seq<LinkData>, visited: set<LinkEndpoint>,
                     consumers: seq<PortRef>)
    requires Ok(def, valueSource, visited, consumers, {})
             && links == SuccessorsOf(def.links, ValueSourceRef(valueSource))
    requires forall j ::
             0 <= j < |links| && Target(links[j].to).Some? ==> Target(links[j].to).value in Covered(visited, consumers)
    ensures forall p :: p in consumers <==> Fed(def, valueSource, PortEndpoint(p))
  {
    hide Reaches;
    var all := Covered(visited, consumers);
    assert Closed(Forward(def), all) by {
      forall x, y | x in all && y in Forward(def)(x)
        ensures y in all
      {
        assert x in visited - {};
      }
    }
    forall p | Fed(def, valueSource, PortEndpoint(p))
      ensures p in consumers
    {
      var l :| l in def.links && l.from == ValueSourceRef(valueSource) && Target(l.to).Some?
        && Reaches(Forward(def), Target(l.to).value, PortEndpoint(p));
      assert l in links;
      Stays(Forward(def), all, Target(l.to).value, PortEndpoint(p));
      assert !IsJunction(PortEndpoint(p));
    }
    forall p | p in consumers
      ensures Fed(def, valueSource, PortEndpoint(p))
    {
      assert PortEndpoint(p) in all;
    }
  }

  // ---------------------------------------------------------------------
  // The forward walk is the converse of the backward one

  /** Tap-free, one driver per target, and every fed candidate is declared. */
  ghost predicate SingleDriven(def: GraphDef) {
    && (forall i, j :: 0 <= i < j < |def.links| ==> def.links[i].to != def.links[j].to)
    && (forall l :: l in def.links ==> !l.from.WidgetTapRef? && !(l.from.SelectorRef? && l.from.candidate.Some?))
    && (forall l :: l in def.links && l.to.SelectorRef? && l.to.candidate.Some? ==>
          l.to.candidate.value in Candidates(def, l.to.selector))
  }

  lemma SoleDriver(def: GraphDef, l: LinkData)
    requires SingleDriven(def) && l in def.links
    ensures DriverOf(def.links, l.to) == Some(l)
  {
    hide DriverOf;
    var d := DriverOf(def.links, l.to).value;
    var i :| 0 <= i < |def.links| && def.links[i] == l;
    var j :| 0 <= j < |def.links| && def.links[j] == d;
  }

  /** One link forward into a junction is one or two steps back. */
  lemma BackStep(def: GraphDef, indexed: bool, l: LinkData)
    requires SingleDriven(def) && l in def.links && Target(l.to).Some? && IsJunction(Target(l.to).value)
    ensures Above(def, indexed, map[], Target(l.to).value, l.from)
  {
    var next := AllNext(def, indexed, map[]);
    SoleDriver(def, l);
    Edge(next, l.to, l.from);
    if l.to.SelectorRef? {
      var s, c := l.to.selector, l.to.candidate.value;
      var i :| 0 <= i < |Candidates(def, s)| && Candidates(def, s)[i] == c;
      assert Branches(def, map[], s)[i] == l.to;
      Edge(next, SelectorRef(s, None), l.to);
      Trans(next, SelectorRef(s, None), l.to, l.from);
    }
  }

  /** The driver of the input at the end of a forward walk has the value source above it. */
  lemma {:induction false} ForwardThenBack(def: GraphDef, indexed: bool, valueSource: Id, k: LinkEndpoint,
                                           w: seq<LinkEndpoint>, p: PortRef)
    requires SingleDriven(def) && w != [] && Walk(Forward(def), k, w, PortEndpoint(p))
    requires Above(def, indexed, map[], k, ValueSourceRef(valueSource))
    ensures DriverOf(def.links, PortEndpoint(p)).Some?
    ensures Above(def, indexed, map[], DriverOf(def.links, PortEndpoint(p)).value.from, ValueSourceRef(valueSource))
    decreases |w|
  {
    hide Reaches;
    var l :| l in SuccessorsOf(def.links, k) && Target(l.to).Some? && Target(l.to).value == w[0];
    if IsJunction(w[0]) {
      BackStep(def, indexed, l);
      Trans(AllNext(def, indexed, map[]), w[0], k, ValueSourceRef(valueSource));
      ForwardThenBack(def, indexed, valueSource, w[0], w[1..], p);
    } else {
      SoleDriver(def, l);
      assert w[1..] == [];
    }
  }

  /** Whatever a link carries on from below a value source is fed by it. */
  lemma {:induction false} BackThenForward(def: GraphDef, indexed: bool, valueSource: Id, e: LinkEndpoint,
                                           w: seq<LinkEndpoint>, l: LinkData)
    requires SingleDriven(def) && l in def.links && l.from == e && Target(l.to).Some?
    requires Walk(AllNext(def, indexed, map[]), e, w, ValueSourceRef(valueSource))
    ensures Fed(def, valueSource, Target(l.to).value)
    decreases |w|
  {
    hide Fed;
    if w == [] {
      FedDirectly(def, valueSource, l);
    } else {
      var k, rest := w[0], w[1..];
      var into := e;
      if e.SelectorRef? {
        assert k in Branches(def, map[], e.selector);
        into, k, rest := k, rest[0], rest[1..];
      }
      var d := DriverOf(def.links, into).value;
      assert d.from == k;
      BackThenForward(def, indexed, valueSource, k, rest, d);
      FedOnward(def, valueSource, e, l);
    }
  }

  /**
   * An input is among the value source's consumers exactly when the value source is among the
   * producers listed from the link that drives the input.
   */
  lemma ConsumersConverse(def: GraphDef, indexed: bool, valueSource: Id, p: PortRef)
    requires SingleDriven(def)
    ensures Fed(def, valueSource, PortEndpoint(p)) <==>
            DriverOf(def.links, PortEndpoint(p)).Some?
            && Produces(def, indexed, map[], DriverOf(def.links, PortEndpoint(p)).value.from,
               ValueSource(valueSource, None))
  {
    var vs := ValueSourceRef(valueSource);
    if Fed(def, valueSource, PortEndpoint(p)) {
      var l :| l in def.links && l.from == vs && Target(l.to).Some?
        && Reaches(Forward(def), Target(l.to).value, PortEndpoint(p));
      var w :| Walk(Forward(def), Target(l.to).value, w, PortEndpoint(p));
      Refl(AllNext(def, indexed, map[]), vs);
      if w == [] {
        SoleDriver(def, l);
      } else {
        BackStep(def, indexed, l);
        ForwardThenBack(def, indexed, valueSource, Target(l.to).value, w, p);
      }
      assert Terminal(def, indexed, vs) == Some(ValueSource(valueSource, None));
    }
    if DriverOf(def.links, PortEndpoint(p)).Some? {
      var d := DriverOf(def.links, PortEndpoint(p)).value;
      if Produces(def, indexed, map[], d.from, ValueSource(valueSource, None)) {
        var e :| Above(def, indexed, map[], d.from, e)
          && Terminal(def, indexed, e) == Some(ValueSource(valueSource, None));
        assert e == vs;
        var w :| Walk(AllNext(def, indexed, map[]), d.from, w, e);
        BackThenForward(def, indexed, valueSource, d.from, w, d);
      }
    }
  }
}
