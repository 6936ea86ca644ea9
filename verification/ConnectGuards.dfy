/**
 * The cycle guards consulted before a connection is made, and what they guarantee
 * about the structural upstream relation of the edited definition.
 */
module ConnectGuards {
  import opened Graphs
  import opened Identity
  import opened Reroute
  import opened AllProducers

  /** The structural upstream relation: every alias, every candidate. */
  ghost function Structure(def: GraphDef): LinkEndpoint -> set<LinkEndpoint> {
    AllNext(def, true, map[])
  }

  /** One step of the guards' walk: junctions only, ports, taps and value sources end it. */
  function JunctionUpstream(def: GraphDef, e: LinkEndpoint): seq<LinkEndpoint> {
    if e.WidgetTapRef? then [] else Upstream(def, true, map[], e)
  }

  function JunctionNext(def: GraphDef): LinkEndpoint -> set<LinkEndpoint> {
    e => set x | x in JunctionUpstream(def, e)
  }

  // ---------------------------------------------------------------------
  // The shared engine

  ghost predicate Hunting(def: GraphDef, from: LinkEndpoint, hits: LinkEndpoint -> bool,
                          seen: set<LinkEndpoint>, stack: seq<LinkEndpoint>, visited: set<LinkEndpoint>)
  {
    && Frontier(JunctionNext(def), from, seen, stack)
    && (forall e :: e in seen ==> !hits(e))
    && (forall e :: e in visited <==> e in seen && (e.RerouteRef? || e.SelectorRef?))
    && seen <= Meetable(def, map[], from)
    && (forall e :: e in stack ==> e in Meetable(def, map[], from))
  }

  lemma HuntStart(def: GraphDef, from: LinkEndpoint, hits: LinkEndpoint -> bool)
    ensures Hunting(def, from, hits, {}, [from], {})
  {
    FrontierStart(JunctionNext(def), from);
  }

  lemma HuntStep(def: GraphDef, from: LinkEndpoint, hits: LinkEndpoint -> bool, seen: set<LinkEndpoint>,
                 stack: seq<LinkEndpoint>, visited: set<LinkEndpoint>, e: LinkEndpoint, more: seq<LinkEndpoint>)
    requires Hunting(def, from, hits, seen, stack + [e], visited) && e !in visited && !hits(e)
    requires forall x :: x in more <==> x in JunctionUpstream(def, e)
    ensures Hunting(def, from, hits, seen + {e}, stack + more, if e.RerouteRef? || e.SelectorRef? then visited + {e}
            else visited)
  {
    hide Reaches;
    FrontierStep(JunctionNext(def), from, seen, stack, e, more);
    assert e in stack + [e];
    MeetsAll(def, true, map[], from, e, stack, more);
    hide Meetable;
    hide Frontier;
  }

  lemma HuntShrinks(def: GraphDef, from: LinkEndpoint, hits: LinkEndpoint -> bool,
                    seen: set<LinkEndpoint>, stack: seq<LinkEndpoint>, visited: set<LinkEndpoint>, e: LinkEndpoint)
    requires Hunting(def, from, hits, seen, stack + [e], visited)
    ensures var all := Meetable(def, map[], from);
            |all - (seen + {e})| <= |all - seen| && (e !in seen ==> |all - (seen + {e})| < |all - seen|)
    ensures e in visited ==> Hunting(def, from, hits, seen, stack, visited)
    ensures Reaches(JunctionNext(def), from, e)
  {
    hide Reaches;
    hide Meetable;
    assert e in stack + [e];
    assert Reaches(JunctionNext(def), from, e);
    if e !in seen {
      KeysShrink(Meetable(def, map[], from), seen, e);
    } else {
      assert seen + {e} == seen;
      FrontierSkip(JunctionNext(def), from, seen, stack, e);
      assert forall x :: x in stack ==> x in stack + [e];
    }
    hide Frontier;
  }

  /** Whether the junction region upstream of `from` contains a hit; terminates on cyclic definitions. */
  method UpstreamHitsJunction(def: GraphDef, from: LinkEndpoint, hits: LinkEndpoint -> bool,
                              index: Option<RerouteIndex>)
    returns (found: bool)
    requires index.Some? ==> Indexes(index.value, def)
    ensures found <==> exists e :: Reaches(JunctionNext(def), from, e) && hits(e)
  {
    hide *;
    var stack := [from];
    var visited: set<LinkEndpoint> := {};
    ghost var seen: set<LinkEndpoint> := {};
    HuntStart(def, from, hits);
    while |stack| > 0
      invariant Hunting(def, from, hits, seen, stack, visited)
      decreases |Meetable(def, map[], from) - seen|, |stack|
    {
      var current := stack[|stack| - 1];
      assert stack == stack[..|stack| - 1] + [current];
      stack := stack[..|stack| - 1];
      HuntShrinks(def, from, hits, seen, stack, visited, current);
      if hits(current) {
        return true;
      }
      if current in visited {
        continue;
      }
      var more := ExpandJunction(def, index, current);
      HuntStep(def, from, hits, seen, stack, visited, current, more);
      HuntMarks(def, from, hits, seen, stack, visited, current);
      if current.RerouteRef? || current.SelectorRef? {
        visited := visited + {current};
      }
      stack := stack + more;
      seen := seen + {current};
    }
    assert stack == [];
    HuntDone(def, from, hits, seen, visited);
    return false;
  }

  lemma HuntMarks(def: GraphDef, from: LinkEndpoint, hits: LinkEndpoint -> bool,
                  seen: set<LinkEndpoint>, stack: seq<LinkEndpoint>, visited: set<LinkEndpoint>, e: LinkEndpoint)
    requires Hunting(def, from, hits, seen, stack + [e], visited) && e !in visited
    ensures e.RerouteRef? || e.SelectorRef? ==> e !in seen
  {
  }

  lemma HuntDone(def: GraphDef, from: LinkEndpoint, hits: LinkEndpoint -> bool, seen: set<LinkEndpoint>,
                 visited: set<LinkEndpoint>)
    requires Hunting(def, from, hits, seen, [], visited)
    ensures !exists e :: Reaches(JunctionNext(def), from, e) && hits(e)
  {
    FrontierDone(JunctionNext(def), from, seen);
  }

  method ExpandJunction(def: GraphDef, index: Option<RerouteIndex>, e: LinkEndpoint) returns (more: seq<LinkEndpoint>)
    requires index.Some? ==> Indexes(index.value, def)
    ensures forall x :: x in more <==> x in JunctionUpstream(def, e)
    ensures !(e.RerouteRef? || e.SelectorRef?) ==> more == []
  {
    match e {
      case RerouteRef(id) =>
        var driver := RerouteDriverOf(def, id, index);
        return if driver.Some? then [driver.value.from] else [];
      case SelectorRef(selector, Some(candidate)) =>
        var driver := SelectorDriverOf(def, selector, candidate, index);
        return if driver.Some? then [driver.value.from] else [];
      case SelectorRef(selector, None) =>
        more := [];
        var candidates := Candidates(def, selector);
        ghost var branches := Branches(def, map[], selector);
        for i := 0 to |candidates|
          invariant forall x :: x in more <==> x in branches[..i]
        {
          more := more + [SelectorRef(selector, Some(candidates[i]))];
          assert branches[..i + 1] == branches[..i] + [branches[i]];
        }
        assert branches[..|candidates|] == branches;
      case _ =>
        return [];
    }
  }

  method WouldCreateRerouteCycle(def: GraphDef, from: LinkEndpoint, toReroute: Id, index: Option<RerouteIndex>)
    returns (found: bool)
    requires index.Some? ==> Indexes(index.value, def)
    ensures found <==> Reaches(JunctionNext(def), from, RerouteRef(toReroute))
  {
    found := UpstreamHitsJunction(def, from, (e: LinkEndpoint) => e.RerouteRef? && e.reroute == toReroute, index);
  }

  method WouldCreateSelectorCycle(def: GraphDef, from: LinkEndpoint, toSelector: Id, index: Option<RerouteIndex>)
    returns (found: bool)
    requires index.Some? ==> Indexes(index.value, def)
    ensures found <==> exists c :: Reaches(JunctionNext(def), from, SelectorRef(toSelector, c))
  {
    found := UpstreamHitsJunction(def, from, (e: LinkEndpoint) => e.SelectorRef? && e.selector == toSelector, index);
  }

  // ---------------------------------------------------------------------
  // The edit the guards protect

  function WithoutTarget(links: seq<LinkData>, to: LinkEndpoint): (kept: seq<LinkData>)
    ensures forall l :: l in kept <==> l in links && l.to != to
    ensures forall x :: DriverOf(kept, x) == if x == to then None else DriverOf(links, x)
  {
    if links == [] then []
    else
      var l := links[|links| - 1];
      assert links == links[..|links| - 1] + [l];
      var kept := WithoutTarget(links[..|links| - 1], to);
      assert (kept + [l])[..|kept|] == kept;
      if l.to == to then kept else kept + [l]
  }

  function WithoutSink(sinks: seq<PortRef>, p: PortRef): (kept: seq<PortRef>)
    ensures forall x :: x in kept <==> x in sinks && x != p
  {
    if sinks == [] then []
    else
      assert sinks == [sinks[0]] + sinks[1..];
      (if sinks[0] == p then [] else [sinks[0]]) + WithoutSink(sinks[1..], p)
  }

  function NetsWithout(nets: seq<NetData>, to: LinkEndpoint): seq<NetData> {
    if to.PortEndpoint?
      then seq(|nets|, i requires 0 <= i < |nets| => nets[i].(sinks := WithoutSink(nets[i].sinks, to.ref)))
    else nets
  }

  /** Connecting replaces whatever drove the target: its links, and its net memberships if it is an input. */
  function Connect(def: GraphDef, id: Id, from: LinkEndpoint, to: LinkEndpoint): GraphDef {
    def.(links := WithoutTarget(def.links, to) + [LinkData(id, from, to)], nets := NetsWithout(def.nets, to))
  }

  lemma ConnectDriver(def: GraphDef, id: Id, from: LinkEndpoint, to: LinkEndpoint, x: LinkEndpoint)
    ensures DriverOf(Connect(def, id, from, to).links, x) ==
            if x == to then Some(LinkData(id, from, to)) else DriverOf(def.links, x)
  {
    var kept := WithoutTarget(def.links, to);
    assert (kept + [LinkData(id, from, to)])[..|kept|] == kept;
  }

  /** No link is sourced from a tap, and none from a candidate (candidates consume, never produce). */
  ghost predicate LegalSources(def: GraphDef) {
    forall l :: l in def.links ==> LegalSource(l.from)
  }

  predicate LegalSource(e: LinkEndpoint) {
    !e.WidgetTapRef? && !(e.SelectorRef? && e.candidate.Some?)
  }

  lemma ConnectUpstream(def: GraphDef, id: Id, from: LinkEndpoint, to: LinkEndpoint, x: LinkEndpoint)
    requires to.RerouteRef? || (to.SelectorRef? && to.candidate.Some?)
    ensures Upstream(Connect(def, id, from, to), true, map[], x) == if x == to then [from]
            else Upstream(def, true, map[], x)
  {
    hide DriverOf;
    ConnectDriver(def, id, from, to, x);
    if x.WidgetTapRef? {
      ConnectDriver(def, id, from, to, PortEndpoint(TappedInput(x.node, x.tap)));
    }
    hide WithoutTarget;
    hide LastNetSource;
  }

  /** Connecting a junction changes the upstream relation at that junction only. */
  lemma ConnectAgrees(def: GraphDef, id: Id, from: LinkEndpoint, to: LinkEndpoint)
    requires to.RerouteRef? || (to.SelectorRef? && to.candidate.Some?)
    ensures AgreeExcept(Structure(def), Structure(Connect(def, id, from, to)), to)
    ensures Structure(Connect(def, id, from, to))(to) == {from}
  {
    hide Connect;
    hide Upstream;
    var after := Connect(def, id, from, to);
    forall x: LinkEndpoint {:trigger Structure(def)(x)} | x != to
      ensures Structure(def)(x) == Structure(after)(x)
    {
      ConnectUpstream(def, id, from, to, x);
    }
    ConnectUpstream(def, id, from, to, to);
  }

  lemma {:induction false} TapFreeWalk(def: GraphDef, a: LinkEndpoint, p: seq<LinkEndpoint>, b: LinkEndpoint)
    requires LegalSources(def) && !a.WidgetTapRef? && Walk(Structure(def), a, p, b)
    ensures Reaches(JunctionNext(def), a, b)
    decreases |p|
  {
    var next := JunctionNext(def);
    if p == [] {
      Refl(next, a);
    } else {
      assert p[0] in next(a);
      TapFreeWalk(def, p[0], p[1..], b);
      Edge(next, a, p[0]);
      Trans(next, a, p[0], b);
    }
  }

  /** Where no tap is a source, the guards' walk sees the whole structural region. */
  lemma JunctionsSuffice(def: GraphDef, from: LinkEndpoint, e: LinkEndpoint)
    requires LegalSources(def) && !from.WidgetTapRef?
    ensures Reaches(Structure(def), from, e) <==> Reaches(JunctionNext(def), from, e)
  {
    if Reaches(Structure(def), from, e) {
      var p :| Walk(Structure(def), from, p, e);
      TapFreeWalk(def, from, p, e);
    }
    if Reaches(JunctionNext(def), from, e) {
      assert forall x :: JunctionNext(def)(x) <= Structure(def)(x);
      Mono(JunctionNext(def), Structure(def), from, e);
    }
  }

  /**
   * On an acyclic, tap-free definition, connecting to a reroute closes a structural cycle
   * exactly when the reroute guard says so.
   */
  lemma RerouteGuardExact(def: GraphDef, id: Id, from: LinkEndpoint, r: Id)
    requires LegalSources(def) && LegalSource(from) && Acyclic(Structure(def))
    ensures Acyclic(Structure(Connect(def, id, from, RerouteRef(r)))) <==>
            !Reaches(JunctionNext(def), from, RerouteRef(r))
  {
    var to := RerouteRef(r);
    ConnectAgrees(def, id, from, to);
    RewireCycle(Structure(def), Structure(Connect(def, id, from, to)), to);
    JunctionsSuffice(def, from, to);
  }

  /** A walk from a legal source enters a candidate only through its selector's output. */
  lemma {:induction false} CandidateViaOutput(def: GraphDef, a: LinkEndpoint, p: seq<LinkEndpoint>, s: Id, c: Id)
    requires LegalSources(def) && LegalSource(a) && Walk(JunctionNext(def), a, p, SelectorRef(s, Some(c)))
    ensures Reaches(JunctionNext(def), a, SelectorRef(s, None))
    decreases |p|
  {
    var next := JunctionNext(def);
    if a == SelectorRef(s, None) {
      Refl(next, a);
    } else {
      Edge(next, a, p[0]);
      if a.SelectorRef? {
        assert p[0].SelectorRef? && p[0].selector == a.selector && p[0].candidate.Some?;
        assert p[1..] != [];
        Edge(next, p[0], p[1]);
        CandidateViaOutput(def, p[1], p[2..], s, c) by { assert p[1..][1..] == p[2..]; assert p[1..][0] == p[1]; }
        Trans(next, a, p[0], p[1]);
        Trans(next, a, p[1], SelectorRef(s, None));
      } else {
        CandidateViaOutput(def, p[0], p[1..], s, c);
        Trans(next, a, p[0], SelectorRef(s, None));
      }
    }
  }

  /** The selector guard hits exactly when the connected candidate itself lies upstream. */
  lemma SelectorHit(def: GraphDef, from: LinkEndpoint, s: Id, c: Id)
    requires LegalSources(def) && LegalSource(from) && c in Candidates(def, s)
    ensures (exists k :: Reaches(JunctionNext(def), from, SelectorRef(s, k)))
            <==> Reaches(JunctionNext(def), from, SelectorRef(s, Some(c)))
  {
    var next := JunctionNext(def);
    if k :| Reaches(next, from, SelectorRef(s, k)) {
      if k.Some? {
        var p :| Walk(next, from, p, SelectorRef(s, k));
        CandidateViaOutput(def, from, p, s, k.value);
      }
      var i :| 0 <= i < |Candidates(def, s)| && Candidates(def, s)[i] == c;
      assert Branches(def, map[], s)[i] == SelectorRef(s, Some(c));
      Snoc(next, from, SelectorRef(s, None), SelectorRef(s, Some(c)));
    }
  }

  /**
   * On an acyclic, tap-free definition, connecting to a declared selector candidate closes a
   * structural cycle exactly when the selector guard says so.
   */
  lemma SelectorGuardExact(def: GraphDef, id: Id, from: LinkEndpoint, s: Id, c: Id)
    requires LegalSources(def) && LegalSource(from) && Acyclic(Structure(def)) && c in Candidates(def, s)
    ensures Acyclic(Structure(Connect(def, id, from, SelectorRef(s, Some(c)))))
            <==> !exists k :: Reaches(JunctionNext(def), from, SelectorRef(s, k))
  {
    var to := SelectorRef(s, Some(c));
    ConnectAgrees(def, id, from, to);
    RewireCycle(Structure(def), Structure(Connect(def, id, from, to)), to);
    JunctionsSuffice(def, from, to);
    SelectorHit(def, from, s, c);
  }

  // ---------------------------------------------------------------------
  // The connection rules as a whole

  /** The definition with `from` driving `to` and every other link into `to` set aside. */
  function Trial(def: GraphDef, id: Id, from: LinkEndpoint, to: LinkEndpoint): GraphDef {
    def.(links := WithoutTarget(def.links, to) + [LinkData(id, from, to)])
  }

  ghost predicate TapCycles(def: GraphDef, id: Id, from: LinkEndpoint, to: LinkEndpoint) {
    exists t :: Loops(Trial(def, id, from, to), None, from, t)
  }

  method WouldCreateTapCycle(def: GraphDef, id: Id, from: LinkEndpoint, to: LinkEndpoint) returns (found: bool)
    ensures found <==> TapCycles(def, id, from, to)
  {
    var trial := Trial(def, id, from, to);
    var index := BuildRerouteIndex(trial);
    var t := TraceEndpoint(trial, from, Some(index), None);
    found := t.IsCycle();
    if !found && TapCycles(def, id, from, to) {
      ghost var loop :| Loops(trial, None, from, loop);
      TraceExclusive(trial, true, None, from, loop, t);
    }
  }

  datatype ConnectRefusal =
    | TapTarget | ValueSourceTarget | SelectorCandidateSource | SelectorOutputTarget
    | SelfLoop | TapCycleRefused | RerouteCycleRefused | SelectorCycleRefused

  /** What `connectError` lets through; `id` names the prospective link of the tap check. */
  ghost predicate Accepts(def: GraphDef, id: Id, from: LinkEndpoint, to: LinkEndpoint) {
    && (to.PortEndpoint? || to.RerouteRef? || (to.SelectorRef? && to.candidate.Some?))
    && !(from.SelectorRef? && from.candidate.Some?)
    && !(from.PortEndpoint? && to.PortEndpoint? && from.ref.node == to.ref.node)
    && !(from.WidgetTapRef? && to.PortEndpoint? && from.node == to.ref.node && from.tap == to.ref.port)
    && (from.WidgetTapRef? ==> !TapCycles(def, id, from, to))
    && (to.RerouteRef? ==> !Reaches(JunctionNext(def), from, to))
    && (to.SelectorRef? ==> !exists c :: Reaches(JunctionNext(def), from, SelectorRef(to.selector, c)))
  }

  /** Both ends of a connection on one node, one input and its own tap, one reroute or one selector. */
  predicate SameElement(from: LinkEndpoint, to: LinkEndpoint) {
    || (from.PortEndpoint? && to.PortEndpoint? && from.ref.node == to.ref.node)
    || (from.WidgetTapRef? && to.PortEndpoint? && from.node == to.ref.node && from.tap == to.ref.port)
    || (from.RerouteRef? && to == from)
    || (from.SelectorRef? && to.SelectorRef? && from.selector == to.selector)
  }

  /** What each refusal means. No two of them hold of one connection. */
  ghost predicate Refuses(def: GraphDef, id: Id, from: LinkEndpoint, to: LinkEndpoint, refusal: ConnectRefusal) {
    var fromCandidate := from.SelectorRef? && from.candidate.Some?;
    var toInput := to.PortEndpoint? || to.RerouteRef? || (to.SelectorRef? && to.candidate.Some?);
    var apart := toInput && !fromCandidate && !SameElement(from, to);
    match refusal
    case TapTarget => to.WidgetTapRef?
    case ValueSourceTarget => to.ValueSourceRef?
    case SelectorCandidateSource => fromCandidate && !to.WidgetTapRef? && !to.ValueSourceRef?
    case SelectorOutputTarget => !fromCandidate && to.SelectorRef? && to.candidate.None?
    case SelfLoop => toInput && !fromCandidate && SameElement(from, to)
    case TapCycleRefused => apart && from.WidgetTapRef? && TapCycles(def, id, from, to)
    case RerouteCycleRefused =>
      && apart && to.RerouteRef? && Reaches(JunctionNext(def), from, to)
      && (from.WidgetTapRef? ==> !TapCycles(def, id, from, to))
    case SelectorCycleRefused =>
      && apart && to.SelectorRef? && (exists c :: Reaches(JunctionNext(def), from, SelectorRef(to.selector, c)))
      && (from.WidgetTapRef? ==> !TapCycles(def, id, from, to))
  }

  method ConnectError(def: GraphDef, id: Id, from: LinkEndpoint, to: LinkEndpoint)
    returns (refusal: Option<ConnectRefusal>)
    ensures refusal.None? <==> Accepts(def, id, from, to)
    ensures refusal.Some? ==> Refuses(def, id, from, to, refusal.value)
  {
    Refl(JunctionNext(def), from);
    if to.WidgetTapRef? { return Some(TapTarget); }
    if to.ValueSourceRef? { return Some(ValueSourceTarget); }
    if from.SelectorRef? && from.candidate.Some? { return Some(SelectorCandidateSource); }
    if to.SelectorRef? && to.candidate.None? { return Some(SelectorOutputTarget); }
    if from.PortEndpoint? && to.PortEndpoint? && from.ref.node == to.ref.node { return Some(SelfLoop); }
    if from.WidgetTapRef? && to.PortEndpoint? && from.node == to.ref.node
      && from.tap == to.ref.port { return Some(SelfLoop); }
    if from.WidgetTapRef? {
      var tapCycle := WouldCreateTapCycle(def, id, from, to);
      if tapCycle { return Some(TapCycleRefused); }
    }
    if to.RerouteRef? {
      if from == to { return Some(SelfLoop); }
      var found := WouldCreateRerouteCycle(def, from, to.reroute, None);
      if found { return Some(RerouteCycleRefused); }
    }
    if to.SelectorRef? {
      if from.SelectorRef? && from.selector == to.selector {
        assert Reaches(JunctionNext(def), from, SelectorRef(to.selector, from.candidate));
        return Some(SelfLoop);
      }
      var found := WouldCreateSelectorCycle(def, from, to.selector, None);
      if found { return Some(SelectorCycleRefused); }
    }
    return None;
  }

  // ---------------------------------------------------------------------
  // Exactly when a connection closes a cycle, taps included

  /** The element of the upstream relation that a link into `to` gives a new upstream. */
  function Opened(to: LinkEndpoint): Option<LinkEndpoint> {
    match to
    case PortEndpoint(ref) => if ref.members == [] then Some(WidgetTapRef(ref.node, ref.port)) else None
    case RerouteRef(_) => Some(to)
    case SelectorRef(_, candidate) => if candidate.Some? then Some(to) else None
    case _ => None
  }

  lemma KeptNets(nets: seq<NetData>, to: LinkEndpoint, p: PortRef)
    requires to != PortEndpoint(p)
    ensures LastNetSource(NetsWithout(nets, to), p) == LastNetSource(nets, p)
  {
    if to.PortEndpoint? && nets != [] {
      var k := |nets| - 1;
      assert NetsWithout(nets, to)[..k] == NetsWithout(nets[..k], to);
      KeptNets(nets[..k], to, p);
    }
  }

  lemma PortUpstream(def: GraphDef, id: Id, from: LinkEndpoint, to: LinkEndpoint, x: LinkEndpoint)
    requires to.PortEndpoint?
    ensures Upstream(Connect(def, id, from, to), true, map[], x) ==
            if Opened(to) == Some(x) then [from] else Upstream(def, true, map[], x)
  {
    hide DriverOf;
    hide LastNetSource;
    ConnectDriver(def, id, from, to, x);
    if x.WidgetTapRef? {
      ConnectDriver(def, id, from, to, PortEndpoint(TappedInput(x.node, x.tap)));
      if Opened(to) != Some(x) {
        KeptNets(def.nets, to, TappedInput(x.node, x.tap));
      }
    }
    hide WithoutTarget;
    hide NetsWithout;
  }

  lemma ConnectAgreesAt(def: GraphDef, id: Id, from: LinkEndpoint, to: LinkEndpoint, at: LinkEndpoint)
    requires Opened(to) == Some(at)
    ensures AgreeExcept(Structure(def), Structure(Connect(def, id, from, to)), at)
    ensures Structure(Connect(def, id, from, to))(at) == {from}
  {
    if to.PortEndpoint? {
      hide Connect;
      hide Upstream;
      var after := Connect(def, id, from, to);
      forall x: LinkEndpoint {:trigger Structure(def)(x)} | x != at
        ensures Structure(def)(x) == Structure(after)(x)
      {
        PortUpstream(def, id, from, to, x);
      }
      PortUpstream(def, id, from, to, at);
    } else {
      ConnectAgrees(def, id, from, to);
    }
  }

  /**
   * In any acyclic definition, taps included, a connection closes a cycle exactly when its
   * source already lies downstream of the element the target opens.
   */
  lemma ConnectCycleExact(def: GraphDef, id: Id, from: LinkEndpoint, to: LinkEndpoint, at: LinkEndpoint)
    requires Acyclic(Structure(def)) && Opened(to) == Some(at)
    ensures Acyclic(Structure(Connect(def, id, from, to))) <==> !Reaches(Structure(def), from, at)
  {
    ConnectAgreesAt(def, id, from, to, at);
    RewireCycle(Structure(def), Structure(Connect(def, id, from, to)), at);
  }

  /**
   * The rules check an input target for cycles only when the source is itself a tap. A reroute
   * fed by the input's own tap is accepted as its driver and closes a tap cycle.
   */
  lemma TapCycleSlipsThrough(def: GraphDef, node: Id, tap: Id, r: Id, l0: Id, l1: Id)
    requires def.links == [LinkData(l0, WidgetTapRef(node, tap), RerouteRef(r))] && def.nets == []
    ensures var from, to := RerouteRef(r), PortEndpoint(TappedInput(node, tap));
            Acyclic(Structure(def)) && Accepts(def, l1, from, to) && !Acyclic(Structure(Connect(def, l1, from, to)))
  {
    var from, to, at := RerouteRef(r), PortEndpoint(TappedInput(node, tap)), WidgetTapRef(node, tap);
    var next := Structure(def);
    assert DriverOf(def.links, from) == Some(def.links[0]);
    assert at in next(from);
    Edge(next, from, at);
    OneLinkAcyclic(def);
    ConnectCycleExact(def, l1, from, to, at);
  }

  lemma OneLinkAcyclic(def: GraphDef)
    requires |def.links| == 1 && def.nets == [] && def.links[0].from.WidgetTapRef? && def.links[0].to.RerouteRef?
    ensures Acyclic(Structure(def))
  {
    var next := Structure(def);
    var rank := (e: LinkEndpoint) => if e.RerouteRef? || (e.SelectorRef? && e.candidate.None?) then 1 else 0;
    forall x: LinkEndpoint
      ensures !ReachesPlus(next, x, x)
    {
      var all := Meetable(def, map[], x);
      forall y, z | y in all && z in next(y)
        ensures z in all && rank(z) < rank(y)
      {
        Meets(def, true, map[], x, y, z);
      }
      RankAcyclic(next, rank, all, x);
    }
  }

  // ---------------------------------------------------------------------
  // Any run of guarded edits

  datatype Edit =
    | ConnectEdit(id: Id, from: LinkEndpoint, to: LinkEndpoint)
    | DisconnectEdit(to: LinkEndpoint)
    | AddSelectorEdit(selector: Id, candidates: seq<Id>)

  /** A refused connection and an already present selector leave the definition alone. */
  ghost function ApplyEdit(def: GraphDef, edit: Edit): GraphDef {
    match edit
    case ConnectEdit(id, from, to) => if Accepts(def, id, from, to) then Connect(def, id, from, to) else def
    case DisconnectEdit(to) => def.(links := WithoutTarget(def.links, to))
    case AddSelectorEdit(s, candidates) =>
      if s in def.selectors || (exists l ::
        l in def.links && (l.from == SelectorRef(s, None) || (l.to.SelectorRef? && l.to.selector == s)))
      then def else def.(selectors := def.selectors[s := candidates])
  }

  ghost function RunEdits(def: GraphDef, edits: seq<Edit>): GraphDef
    decreases |edits|
  {
    if edits == [] then def else RunEdits(ApplyEdit(def, edits[0]), edits[1..])
  }

  lemma TapFreeAcyclic(def: GraphDef)
    requires LegalSources(def)
    ensures Acyclic(Structure(def)) <==> Acyclic(JunctionNext(def))
  {
    assert forall x :: JunctionNext(def)(x) <= Structure(def)(x);
    if Acyclic(Structure(def)) {
      AcyclicMono(JunctionNext(def), Structure(def));
    }
    if Acyclic(JunctionNext(def)) {
      forall x
        ensures !ReachesPlus(Structure(def), x, x)
      {
        if ReachesPlus(Structure(def), x, x) {
          TapFreeCycle(def, x);
        }
      }
    }
  }

  lemma TapFreeCycle(def: GraphDef, x: LinkEndpoint)
    requires LegalSources(def) && ReachesPlus(Structure(def), x, x)
    ensures ReachesPlus(JunctionNext(def), x, x)
  {
    var c :| c in Structure(def)(x) && Reaches(Structure(def), c, x);
    TapFreeStep(def, x, c);
    JunctionsSuffice(def, c, x);
    NeverATap(def, c, x);
    assert c in JunctionNext(def)(x);
  }

  lemma TapFreeStep(def: GraphDef, x: LinkEndpoint, c: LinkEndpoint)
    requires LegalSources(def) && c in Structure(def)(x)
    ensures !c.WidgetTapRef?
  {
  }

  lemma NeverATap(def: GraphDef, c: LinkEndpoint, x: LinkEndpoint)
    requires LegalSources(def) && !c.WidgetTapRef? && Reaches(JunctionNext(def), c, x)
    ensures !x.WidgetTapRef?
  {
    var p :| Walk(JunctionNext(def), c, p, x);
    NeverATapWalk(def, c, p, x);
  }

  lemma {:induction false} NeverATapWalk(def: GraphDef, c: LinkEndpoint, p: seq<LinkEndpoint>, x: LinkEndpoint)
    requires LegalSources(def) && !c.WidgetTapRef? && Walk(JunctionNext(def), c, p, x)
    ensures !x.WidgetTapRef?
    decreases |p|
  {
    if p != [] {
      TapFreeStep(def, c, p[0]);
      NeverATapWalk(def, p[0], p[1..], x);
    }
  }

  lemma ConnectKeepsAcyclic(def: GraphDef, id: Id, from: LinkEndpoint, to: LinkEndpoint)
    requires LegalSources(def) && Acyclic(Structure(def)) && !from.WidgetTapRef? && Accepts(def, id, from, to)
    ensures Acyclic(Structure(Connect(def, id, from, to)))
  {
    hide Connect;
    hide Upstream;
    if Opened(to).None? {
      var after := Connect(def, id, from, to);
      forall x: LinkEndpoint
        ensures Structure(after)(x) <= Structure(def)(x)
      {
        PortUpstream(def, id, from, to, x);
      }
      AcyclicMono(Structure(after), Structure(def));
    } else {
      ConnectCycleExact(def, id, from, to, Opened(to).value);
      JunctionsSuffice(def, from, Opened(to).value);
      if to.PortEndpoint? && Reaches(JunctionNext(def), from, Opened(to).value) {
        NeverATap(def, from, Opened(to).value);
      }
    }
  }

  lemma DisconnectKeepsAcyclic(def: GraphDef, to: LinkEndpoint)
    requires LegalSources(def) && Acyclic(Structure(def))
    ensures LegalSources(def.(links := WithoutTarget(def.links, to)))
    ensures Acyclic(Structure(def.(links := WithoutTarget(def.links, to))))
  {
    hide Acyclic;
    hide Structure;
    var after := def.(links := WithoutTarget(def.links, to));
    TapFreeAcyclic(def);
    TapFreeAcyclic(after);
    forall x: LinkEndpoint
      ensures JunctionNext(after)(x) <= JunctionNext(def)(x)
    {
    }
    AcyclicMono(JunctionNext(after), JunctionNext(def));
  }

  /** One guarded edit on a tap-free definition keeps it tap-free and acyclic. */
  lemma EditKeepsAcyclic(def: GraphDef, edit: Edit)
    requires LegalSources(def) && Acyclic(Structure(def))
    requires edit.ConnectEdit? ==> !edit.from.WidgetTapRef?
    ensures LegalSources(ApplyEdit(def, edit)) && Acyclic(Structure(ApplyEdit(def, edit)))
  {
    hide Structure;
    match edit {
      case ConnectEdit(id, from, to) =>
        if Accepts(def, id, from, to) {
          ConnectKeepsAcyclic(def, id, from, to);
        }
      case DisconnectEdit(to) =>
        DisconnectKeepsAcyclic(def, to);
      case AddSelectorEdit(s, candidates) =>
        if ApplyEdit(def, edit) != def {
          NewSelector(def, s, candidates);
        }
    }
  }

  /** A new selector no link touches only adds dead ends. */
  lemma NewSelector(def: GraphDef, s: Id, candidates: seq<Id>)
    requires Acyclic(Structure(def)) && s !in def.selectors
    requires forall l :: l in def.links ==> l.from != SelectorRef(s, None) && !(l.to.SelectorRef? && l.to.selector == s)
    ensures Acyclic(Structure(def.(selectors := def.selectors[s := candidates])))
  {
    var after := def.(selectors := def.selectors[s := candidates]);
    var out := SelectorRef(s, None);
    assert AgreeExcept(Structure(def), Structure(after), out) by {
      forall x: LinkEndpoint {:trigger Structure(def)(x)} | x != out
        ensures Structure(def)(x) == Structure(after)(x)
      {
        assert Upstream(def, true, map[], x) == Upstream(after, true, map[], x);
      }
    }
    RewireCycle(Structure(def), Structure(after), out);
    forall c | c in Structure(after)(out)
      ensures !Reaches(Structure(def), c, out)
    {
      assert c.SelectorRef? && c.selector == s && c.candidate.Some?;
      assert Structure(def)(c) == {};
      if Reaches(Structure(def), c, out) {
        Stays(Structure(def), {c}, c, out);
      }
    }
  }

  /**
   * However long the run, edits that pass the guards keep a tap-free definition acyclic, so that
   * no trace over it loops under any choice of declared candidates.
   */
  lemma {:induction false} GuardedEditsStayAcyclic(def: GraphDef, edits: seq<Edit>)
    requires LegalSources(def) && Acyclic(Structure(def))
    requires forall i :: 0 <= i < |edits| && edits[i].ConnectEdit? ==> !edits[i].from.WidgetTapRef?
    ensures LegalSources(RunEdits(def, edits)) && Acyclic(Structure(RunEdits(def, edits)))
    ensures forall selection, from, t ::
            Decides(RunEdits(def, edits), selection, map[]) ==> !Loops(RunEdits(def, edits), selection, from, t)
    decreases |edits|
  {
    hide Loops;
    if edits != [] {
      EditKeepsAcyclic(def, edits[0]);
      GuardedEditsStayAcyclic(ApplyEdit(def, edits[0]), edits[1..]);
    } else {
      forall selection, from, t | Decides(def, selection, map[])
        ensures !Loops(def, selection, from, t)
      {
        AcyclicNeverLoops(def, selection, from, t);
      }
    }
  }
}
