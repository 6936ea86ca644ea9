/**
 * Tracing over the links of one graph definition: reroutes, selectors, widget taps
 * and nets collapse to the producers that really drive an endpoint.
 */
module Reroute {
  import opened Graphs
  import opened Identity

  /** A static port has no members. */
  datatype PortRef = PortRef(node: Id, port: Id, members: seq<Id>)

  datatype LinkEndpoint =
    | PortEndpoint(ref: PortRef)
    | RerouteRef(reroute: Id)
    | ValueSourceRef(valueSource: Id)
    | SelectorRef(selector: Id, candidate: Option<Id>)
    | WidgetTapRef(node: Id, tap: Id)

  datatype LinkData = LinkData(id: Id, from: LinkEndpoint, to: LinkEndpoint)
  datatype NetData = NetData(id: Id, source: PortRef, sinks: seq<PortRef>)

  /** Links and nets in the order the document lists them; a selector maps to its candidates. */
  datatype GraphDef = GraphDef(
    nodes: set<Id>,
    links: seq<LinkData>,
    nets: seq<NetData>,
    reroutes: set<Id>,
    valueSources: set<Id>,
    selectors: map<Id, seq<Id>>)

  /** Selector id to chosen candidate; an absent entry is unresolvable. */
  type SelectorResolution = map<Id, Id>

  datatype RerouteTrace =
    | Output(ref: PortRef, lastLink: Option<LinkData>)
    | ValueSource(id: Id, lastLink: Option<LinkData>)
    | Undriven(reroute: Id)
    | Cycle(reroute: Id)
    | TapValue(node: Id, input: Id, lastLink: Option<LinkData>)
    | TapCycle(node: Id, input: Id)
    | SelectorOutput(id: Id, lastLink: Option<LinkData>)
    | SelectorUnresolved(selector: Id)
    | SelectorUndriven(selector: Id, candidate: Id)
    | SelectorCycle(selector: Id, candidate: Id)
  {
    predicate IsCycle() {
      Cycle? || TapCycle? || SelectorCycle?
    }
  }

  // ---------------------------------------------------------------------
  // Drivers and successors, by scanning

  /** The first link into `to`. */
  function DriverOf(links: seq<LinkData>, to: LinkEndpoint): (d: Option<LinkData>)
    ensures d.Some? ==> d.value in links && d.value.to == to
    ensures d.None? <==> forall l :: l in links ==> l.to != to
  {
    if links == [] then None
    else
      var l := links[|links| - 1];
      assert links == links[..|links| - 1] + [l];
      var d := DriverOf(links[..|links| - 1], to);
      if d.Some? || l.to != to then d else Some(l)
  }

  /** The links out of `from`, in document order. */
  function SuccessorsOf(links: seq<LinkData>, from: LinkEndpoint): (s: seq<LinkData>)
    ensures forall l :: l in s <==> l in links && l.from == from
  {
    if links == [] then []
    else
      var l := links[|links| - 1];
      assert links == links[..|links| - 1] + [l];
      var s := SuccessorsOf(links[..|links| - 1], from);
      if l.from == from then s + [l] else s
  }

  /** The source of the first net that lists `p`. */
  function FirstNetSource(nets: seq<NetData>, p: PortRef): (s: Option<PortRef>)
    ensures s.Some? ==> exists n :: n in nets && p in n.sinks && n.source == s.value
    ensures s.None? <==> forall n :: n in nets ==> p !in n.sinks
  {
    if nets == [] then None
    else
      var n := nets[0];
      assert nets == [n] + nets[1..];
      if p in n.sinks then Some(n.source) else FirstNetSource(nets[1..], p)
  }

  /** The source of the last net that lists `p`, which is what a built index holds. */
  function LastNetSource(nets: seq<NetData>, p: PortRef): (s: Option<PortRef>)
    ensures s.Some? ==> exists n :: n in nets && p in n.sinks && n.source == s.value
    ensures s.None? <==> forall n :: n in nets ==> p !in n.sinks
  {
    if nets == [] then None
    else
      var n := nets[|nets| - 1];
      assert nets == nets[..|nets| - 1] + [n];
      if p in n.sinks then Some(n.source) else LastNetSource(nets[..|nets| - 1], p)
  }

  function NetSource(def: GraphDef, indexed: bool, p: PortRef): Option<PortRef> {
    if indexed then LastNetSource(def.nets, p) else FirstNetSource(def.nets, p)
  }

  // ---------------------------------------------------------------------
  // The index

  datatype RerouteIndex = RerouteIndex(
    driverOf: map<Id, LinkData>,
    successorsOf: map<Id, seq<LinkData>>,
    selectorDriverOf: map<(Id, Id), LinkData>,
    selectorSuccessorsOf: map<Id, seq<LinkData>>,
    inputDriverOf: map<PortRef, LinkData>,
    netSourceOf: map<PortRef, PortRef>)

  function GetList(m: map<Id, seq<LinkData>>, k: Id): seq<LinkData> {
    if k in m then m[k] else []
  }

  ghost predicate IndexesLinks(index: RerouteIndex, links: seq<LinkData>) {
    && (forall r :: Lookup(index.driverOf, r) == DriverOf(links, RerouteRef(r)))
    && (forall r :: GetList(index.successorsOf, r) == SuccessorsOf(links, RerouteRef(r)))
    && (forall s, c :: Lookup(index.selectorDriverOf, (s, c)) == DriverOf(links, SelectorRef(s, Some(c))))
    && (forall s :: GetList(index.selectorSuccessorsOf, s) == SuccessorsOf(links, SelectorRef(s, None)))
    && (forall p :: Lookup(index.inputDriverOf, p) == DriverOf(links, PortEndpoint(p)))
  }

  ghost predicate IndexesNets(netSourceOf: map<PortRef, PortRef>, nets: seq<NetData>) {
    forall p :: Lookup(netSourceOf, p) == LastNetSource(nets, p)
  }

  ghost predicate Indexes(index: RerouteIndex, def: GraphDef) {
    IndexesLinks(index, def.links) && IndexesNets(index.netSourceOf, def.nets)
  }

  /** One pass over the links and one over the nets build an index that answers every scan. */
  method BuildRerouteIndex(def: GraphDef) returns (index: RerouteIndex)
    ensures Indexes(index, def)
  {
    index := RerouteIndex(map[], map[], map[], map[], map[], map[]);
    assert def.links[..0] == [] && IndexesLinks(index, []);
    hide IndexesLinks;
    hide Advances;
    for i := 0 to |def.links|
      invariant IndexesLinks(index, def.links[..i])
    {
      ghost var before := index;
      index := IndexLink(index, def.links[i]);
      IndexStep(before, index, def.links[..i], def.links[i]);
      assert def.links[..i + 1] == def.links[..i] + [def.links[i]];
    }
    assert def.links[..|def.links|] == def.links;
    var netSourceOf := NetSources(def.nets);
    WithNets(index, def.links, netSourceOf);
    index := index.(netSourceOf := netSourceOf);
  }

  lemma WithNets(index: RerouteIndex, links: seq<LinkData>, netSourceOf: map<PortRef, PortRef>)
    requires IndexesLinks(index, links)
    ensures IndexesLinks(index.(netSourceOf := netSourceOf), links)
  {
    hide DriverOf;
    hide SuccessorsOf;
  }

  /** The body of the pass over the links. */
  method IndexLink(before: RerouteIndex, link: LinkData) returns (index: RerouteIndex)
    ensures Advances(before, index, link)
  {
    var driverOf, selectorDriverOf, inputDriverOf := IndexTarget(before, link);
    var successorsOf, selectorSuccessorsOf := IndexSource(before, link);
    index := RerouteIndex(driverOf, successorsOf, selectorDriverOf, selectorSuccessorsOf, inputDriverOf,
      before.netSourceOf);
  }

  /** The target side of a link: it drives its target unless an earlier link does. */
  method IndexTarget(before: RerouteIndex, link: LinkData)
    returns (driverOf: map<Id, LinkData>, selectorDriverOf: map<(Id, Id), LinkData>, inputDriverOf: map<PortRef,
      LinkData>)
    ensures AdvancesDrivers(before.driverOf, driverOf, RerouteTarget, link)
    ensures AdvancesDrivers(before.selectorDriverOf, selectorDriverOf, CandidateTarget, link)
    ensures AdvancesDrivers(before.inputDriverOf, inputDriverOf, PortTarget, link)
  {
    driverOf, selectorDriverOf, inputDriverOf := before.driverOf, before.selectorDriverOf, before.inputDriverOf;
    if link.to.RerouteRef? && link.to.reroute !in driverOf {
      driverOf := driverOf[link.to.reroute := link];
    }
    if link.to.SelectorRef? && link.to.candidate.Some? {
      var key := (link.to.selector, link.to.candidate.value);
      if key !in selectorDriverOf {
        selectorDriverOf := selectorDriverOf[key := link];
      }
    }
    if link.to.PortEndpoint? && link.to.ref !in inputDriverOf {
      inputDriverOf := inputDriverOf[link.to.ref := link];
    }
  }

  /** The source side of a link: it joins the fan-out of a reroute or a selector output. */
  method IndexSource(before: RerouteIndex, link: LinkData)
    returns (successorsOf: map<Id, seq<LinkData>>, selectorSuccessorsOf: map<Id, seq<LinkData>>)
    ensures AdvancesSuccessors(before.successorsOf, successorsOf, RerouteTarget, link)
    ensures AdvancesSuccessors(before.selectorSuccessorsOf, selectorSuccessorsOf, SelectorTarget, link)
  {
    successorsOf, selectorSuccessorsOf := before.successorsOf, before.selectorSuccessorsOf;
    if link.from.RerouteRef? {
      successorsOf := successorsOf[link.from.reroute := GetList(successorsOf, link.from.reroute) + [link]];
    }
    if link.from.SelectorRef? && link.from.candidate.None? {
      selectorSuccessorsOf := selectorSuccessorsOf[link.from.selector :=
        GetList(selectorSuccessorsOf, link.from.selector) + [link]];
    }
  }

  /** The pass over the nets: a later net overwrites an earlier one. */
  method NetSources(nets: seq<NetData>) returns (netSourceOf: map<PortRef, PortRef>)
    ensures IndexesNets(netSourceOf, nets)
  {
    netSourceOf := map[];
    for i := 0 to |nets|
      invariant IndexesNets(netSourceOf, nets[..i])
    {
      var net := nets[i];
      for j := 0 to |net.sinks|
        invariant forall p :: Lookup(netSourceOf, p) ==
                              if p in net.sinks[..j] then Some(net.source) else LastNetSource(nets[..i], p)
      {
        netSourceOf := netSourceOf[net.sinks[j] := net.source];
        assert net.sinks[..j + 1] == net.sinks[..j] + [net.sinks[j]];
      }
      assert net.sinks[..|net.sinks|] == net.sinks;
      NetStep(nets[..i], net);
      assert nets[..i + 1] == nets[..i] + [net];
    }
    assert nets[..|nets|] == nets;
  }

  lemma NetStep(nets: seq<NetData>, net: NetData)
    ensures forall p :: LastNetSource(nets + [net], p) == if p in net.sinks then Some(net.source)
            else LastNetSource(nets, p)
  {
    assert (nets + [net])[..|nets|] == nets;
  }

  function RerouteTarget(r: Id): LinkEndpoint { RerouteRef(r) }

  function CandidateTarget(k: (Id, Id)): LinkEndpoint { SelectorRef(k.0, Some(k.1)) }

  function PortTarget(p: PortRef): LinkEndpoint { PortEndpoint(p) }

  function SelectorTarget(s: Id): LinkEndpoint { SelectorRef(s, None) }

  /** A first-driver map after one more link: only an absent entry is filled. */
  ghost predicate AdvancesDrivers<K(!new)>(before: map<K, LinkData>, after: map<K, LinkData>, at: K -> LinkEndpoint,
                                           link: LinkData)
  {
    forall k :: Lookup(after, k) == if link.to == at(k) && k !in before then Some(link) else Lookup(before, k)
  }

  ghost predicate AdvancesSuccessors(before: map<Id, seq<LinkData>>, after: map<Id, seq<LinkData>>,
                                     at: Id -> LinkEndpoint, link: LinkData)
  {
    forall k :: GetList(after, k) == if link.from == at(k) then GetList(before, k) + [link] else GetList(before, k)
  }

  /** The five link maps after one more link, entry by entry. */
  ghost predicate Advances(before: RerouteIndex, after: RerouteIndex, link: LinkData) {
    && AdvancesDrivers(before.driverOf, after.driverOf, RerouteTarget, link)
    && AdvancesDrivers(before.selectorDriverOf, after.selectorDriverOf, CandidateTarget, link)
    && AdvancesDrivers(before.inputDriverOf, after.inputDriverOf, PortTarget, link)
    && AdvancesSuccessors(before.successorsOf, after.successorsOf, RerouteTarget, link)
    && AdvancesSuccessors(before.selectorSuccessorsOf, after.selectorSuccessorsOf, SelectorTarget, link)
  }

  lemma IndexStep(before: RerouteIndex, after: RerouteIndex, links: seq<LinkData>, link: LinkData)
    requires IndexesLinks(before, links) && Advances(before, after, link)
    ensures IndexesLinks(after, links + [link])
  {
    assert (links + [link])[..|links|] == links;
  }

  // ---------------------------------------------------------------------
  // Lookups used by every walk: by index when there is one, by scan otherwise

  method ScanDriver(links: seq<LinkData>, to: LinkEndpoint) returns (driver: Option<LinkData>)
    ensures driver == DriverOf(links, to)
  {
    for i := 0 to |links|
      invariant DriverOf(links[..i], to) == None
    {
      assert links[..i + 1][..i] == links[..i];
      if links[i].to == to {
        FirstIsDriver(links, i, to);
        return Some(links[i]);
      }
    }
    assert links[..|links|] == links;
    return None;
  }

  lemma {:induction false} FirstIsDriver(links: seq<LinkData>, i: nat, to: LinkEndpoint)
    requires i < |links| && links[i].to == to && DriverOf(links[..i], to) == None
    ensures DriverOf(links, to) == Some(links[i])
    decreases |links|
  {
    var rest := links[..|links| - 1];
    if i < |links| - 1 {
      assert rest[..i] == links[..i];
      FirstIsDriver(rest, i, to);
    }
  }

  method RerouteDriverOf(def: GraphDef, id: Id, index: Option<RerouteIndex>) returns (driver: Option<LinkData>)
    requires index.Some? ==> Indexes(index.value, def)
    ensures driver == DriverOf(def.links, RerouteRef(id))
  {
    if index.Some? {
      return Lookup(index.value.driverOf, id);
    }
    driver := ScanDriver(def.links, RerouteRef(id));
  }

  method SelectorDriverOf(def: GraphDef, selector: Id, candidate: Id, index: Option<RerouteIndex>)
    returns (driver: Option<LinkData>)
    requires index.Some? ==> Indexes(index.value, def)
    ensures driver == DriverOf(def.links, SelectorRef(selector, Some(candidate)))
  {
    if index.Some? {
      return Lookup(index.value.selectorDriverOf, (selector, candidate));
    }
    driver := ScanDriver(def.links, SelectorRef(selector, Some(candidate)));
  }

  /** The driver of an input; a miss in the index falls back to the scan. */
  method InputDriverOf(def: GraphDef, ref: PortRef, index: Option<RerouteIndex>) returns (driver: Option<LinkData>)
    requires index.Some? ==> Indexes(index.value, def)
    ensures driver == DriverOf(def.links, PortEndpoint(ref))
  {
    if index.Some? && ref in index.value.inputDriverOf {
      return Lookup(index.value.inputDriverOf, ref);
    }
    driver := ScanDriver(def.links, PortEndpoint(ref));
  }

  /** The net source of an input: the last listing net with an index, the first one without. */
  method InputNetSourceOf(def: GraphDef, ref: PortRef, index: Option<RerouteIndex>) returns (source: Option<PortRef>)
    requires index.Some? ==> Indexes(index.value, def)
    ensures source == NetSource(def, index.Some?, ref)
  {
    if index.Some? && ref in index.value.netSourceOf {
      return Lookup(index.value.netSourceOf, ref);
    }
    source := ScanNets(def.nets, ref);
    assert index.Some? ==> Lookup(index.value.netSourceOf, ref) == LastNetSource(def.nets, ref);
  }

  method ScanNets(nets: seq<NetData>, ref: PortRef) returns (source: Option<PortRef>)
    ensures source == FirstNetSource(nets, ref)
  {
    for i := 0 to |nets|
      invariant FirstNetSource(nets, ref) == FirstNetSource(nets[i..], ref)
    {
      if ref in nets[i].sinks {
        return Some(nets[i].source);
      }
      assert nets[i..][1..] == nets[i + 1..];
    }
    return None;
  }

  // ---------------------------------------------------------------------
  // One upstream step of a single trace

  function TappedInput(node: Id, tap: Id): PortRef {
    PortRef(node, tap, [])
  }

  /** The candidate a selector endpoint is traced through. */
  function Chosen(selection: Option<SelectorResolution>, selector: Id, candidate: Option<Id>): Option<Id> {
    if candidate.Some? then candidate
    else if selection.Some? then Lookup(selection.value, selector)
    else None
  }

  /** The link a trace follows upstream from `e`; without one the trace ends at `e`. */
  function TraceLink(def: GraphDef, selection: Option<SelectorResolution>, e: LinkEndpoint): Option<LinkData> {
    match e
    case WidgetTapRef(node, tap) => DriverOf(def.links, PortEndpoint(TappedInput(node, tap)))
    case RerouteRef(_) => DriverOf(def.links, e)
    case SelectorRef(selector, candidate) =>
      var chosen := Chosen(selection, selector, candidate);
      if chosen.Some? then DriverOf(def.links, SelectorRef(selector, chosen)) else None
    case _ => None
  }

  function TraceNext(def: GraphDef, selection: Option<SelectorResolution>): LinkEndpoint -> set<LinkEndpoint> {
    e => match TraceLink(def, selection, e) case Some(l) => {l.from} case None => {}
  }

  /** The result of a trace that ends at `e`. */
  function TraceEnd(def: GraphDef, indexed: bool, selection: Option<SelectorResolution>, e: LinkEndpoint,
                    lastLink: Option<LinkData>): RerouteTrace
  {
    match e
    case PortEndpoint(ref) => Output(ref, lastLink)
    case ValueSourceRef(id) => ValueSource(id, lastLink)
    case RerouteRef(id) => Undriven(id)
    case WidgetTapRef(node, tap) =>
      (match NetSource(def, indexed, TappedInput(node, tap))
       case Some(source) => Output(source, lastLink)
       case None => TapValue(node, tap, lastLink))
    case SelectorRef(selector, candidate) =>
      (match Chosen(selection, selector, candidate)
       case Some(c) => SelectorUndriven(selector, c)
       case None => if selection.None? then SelectorOutput(selector, lastLink) else SelectorUnresolved(selector))
  }

  /** `t` reports where the unique upstream walk from `from` ends, and the last link it crossed. */
  ghost predicate Resolves(def: GraphDef, indexed: bool, selection: Option<SelectorResolution>, from: LinkEndpoint,
                           t: RerouteTrace)
  {
    exists e, lastLink ::
      Reaches(TraceNext(def, selection), from, e) && TraceLink(def, selection, e).None?
      && t == TraceEnd(def, indexed, selection, e, lastLink)
      && Arrived(def, selection, from, e, lastLink)
  }

  /** `lastLink` is the link the walk from `from` crossed last when it arrived at `e`. */
  ghost predicate Arrived(def: GraphDef, selection: Option<SelectorResolution>, from: LinkEndpoint, e: LinkEndpoint,
                          lastLink: Option<LinkData>)
  {
    if lastLink.None? then e == from
    else
      && lastLink.value.from == e
      && exists x :: Reaches(TraceNext(def, selection), from, x) && TraceLink(def, selection, x) == lastLink
  }

  /** The cycle a trace reports when it comes back to `e`. */
  function CycleAt(selection: Option<SelectorResolution>, e: LinkEndpoint): Option<RerouteTrace> {
    match e
    case RerouteRef(id) => Some(Cycle(id))
    case WidgetTapRef(node, tap) => Some(TapCycle(node, tap))
    case SelectorRef(selector, candidate) =>
      var chosen := Chosen(selection, selector, candidate);
      if chosen.Some? then Some(SelectorCycle(selector, chosen.value)) else None
    case _ => None
  }

  /** `t` names an endpoint that the walk from `from` reaches and then keeps coming back to. */
  ghost predicate Loops(def: GraphDef, selection: Option<SelectorResolution>, from: LinkEndpoint, t: RerouteTrace) {
    exists e ::
      Reaches(TraceNext(def, selection), from, e) && ReachesPlus(TraceNext(def, selection), e, e)
      && CycleAt(selection, e) == Some(t)
  }

  /** The element the walk marks as visited at `e`: a selector output counts as its chosen candidate. */
  function TraceKey(selection: Option<SelectorResolution>, e: LinkEndpoint): LinkEndpoint {
    if e.SelectorRef? then SelectorRef(e.selector, Chosen(selection, e.selector, e.candidate)) else e
  }

  ghost function TraceKeys(def: GraphDef, selection: Option<SelectorResolution>, from: LinkEndpoint): set<LinkEndpoint>
  {
    {TraceKey(selection, from)} + set l | l in def.links :: TraceKey(selection, l.from)
  }

  /** Everything marked so far was crossed on the way to `current`. */
  ghost predicate Crossed(def: GraphDef, selection: Option<SelectorResolution>, from: LinkEndpoint,
                          visited: set<LinkEndpoint>, current: LinkEndpoint)
  {
    forall k :: k in visited ==>
      exists x :: TraceKey(selection, x) == k && ReachesPlus(TraceNext(def, selection), x, current)
  }

  /** The walk stands at `current`, with every crossed element marked. */
  ghost predicate Tracing(def: GraphDef, selection: Option<SelectorResolution>, from: LinkEndpoint,
                          visited: set<LinkEndpoint>, current: LinkEndpoint, lastLink: Option<LinkData>)
  {
    && Reaches(TraceNext(def, selection), from, current)
    && Crossed(def, selection, from, visited, current)
    && visited <= TraceKeys(def, selection, from) && TraceKey(selection, current) in TraceKeys(def, selection, from)
    && Arrived(def, selection, from, current, lastLink)
  }

  lemma TraceStart(def: GraphDef, selection: Option<SelectorResolution>, from: LinkEndpoint)
    ensures Tracing(def, selection, from, {}, from, None)
  {
    Refl(TraceNext(def, selection), from);
  }

  /** Coming back to a marked element closes a loop of the upstream relation. */
  lemma TraceRevisit(def: GraphDef, selection: Option<SelectorResolution>, from: LinkEndpoint,
                     visited: set<LinkEndpoint>, current: LinkEndpoint, lastLink: Option<LinkData>)
    requires Tracing(def, selection, from, visited, current, lastLink)
    requires TraceKey(selection, current) in visited && CycleAt(selection, current).Some?
    ensures Loops(def, selection, from, CycleAt(selection, current).value)
  {
    hide Reaches;
    var x :| TraceKey(selection, x) == TraceKey(selection, current)
      && ReachesPlus(TraceNext(def, selection), x, current);
    assert TraceLink(def, selection, x) == TraceLink(def, selection, current);
    assert TraceNext(def, selection)(x) == TraceNext(def, selection)(current);
    assert ReachesPlus(TraceNext(def, selection), current, current);
  }

  lemma TraceHalt(def: GraphDef, indexed: bool, selection: Option<SelectorResolution>, from: LinkEndpoint,
                  visited: set<LinkEndpoint>, current: LinkEndpoint, lastLink: Option<LinkData>)
    requires Tracing(def, selection, from, visited, current, lastLink) && TraceLink(def, selection, current).None?
    ensures Resolves(def, indexed, selection, from, TraceEnd(def, indexed, selection, current, lastLink))
  {
    hide Reaches;
    assert Arrived(def, selection, from, current, lastLink);
  }

  lemma CrossedStep(def: GraphDef, selection: Option<SelectorResolution>, from: LinkEndpoint,
                    visited: set<LinkEndpoint>, current: LinkEndpoint, link: LinkData)
    requires Crossed(def, selection, from, visited, current) && TraceLink(def, selection, current) == Some(link)
    ensures Crossed(def, selection, from, visited + {TraceKey(selection, current)}, link.from)
  {
    hide Reaches;
    hide ReachesPlus;
    hide TraceKey;
    var next := TraceNext(def, selection);
    Edge(next, current, link.from);
    forall k | k in visited + {TraceKey(selection, current)}
      ensures exists x :: TraceKey(selection, x) == k && ReachesPlus(next, x, link.from)
    {
      if k in visited {
        var x :| TraceKey(selection, x) == k && ReachesPlus(next, x, current);
        PlusTrans(next, x, current, link.from);
      } else {
        assert ReachesPlus(next, current, link.from);
      }
    }
  }

  /** Following a link from an unmarked element. */
  lemma TraceCross(def: GraphDef, selection: Option<SelectorResolution>, from: LinkEndpoint, visited: set<LinkEndpoint>,
                   current: LinkEndpoint, lastLink: Option<LinkData>, link: LinkData)
    requires Tracing(def, selection, from, visited, current, lastLink)
    requires TraceLink(def, selection, current) == Some(link) && TraceKey(selection, current) !in visited
    ensures Tracing(def, selection, from, visited + {TraceKey(selection, current)}, link.from, Some(link))
    ensures var keys := TraceKeys(def, selection, from);
            |keys - (visited + {TraceKey(selection, current)})| < |keys - visited|
  {
    hide Reaches;
    hide Crossed;
    hide TraceKey;
    Edge(TraceNext(def, selection), current, link.from);
    Trans(TraceNext(def, selection), from, current, link.from);
    CrossedStep(def, selection, from, visited, current, link);
    FromKey(def, selection, from, current, link);
    KeysShrink(TraceKeys(def, selection, from), visited, TraceKey(selection, current));
    hide TraceLink;
    hide TraceKeys;
  }

  lemma FromKey(def: GraphDef, selection: Option<SelectorResolution>, from: LinkEndpoint, e: LinkEndpoint,
                link: LinkData)
    requires TraceLink(def, selection, e) == Some(link)
    ensures TraceKey(selection, link.from) in TraceKeys(def, selection, from)
  {
  }

  lemma KeysShrink<T>(keys: set<T>, visited: set<T>, k: T)
    requires visited <= keys && k in keys && k !in visited
    ensures |keys - (visited + {k})| < |keys - visited|
  {
    assert keys - visited == keys - (visited + {k}) + {k};
  }

  /**
   * The trace terminates on every definition, malformed or not, and either reports
   * the end of the upstream walk or an element the walk loops through.
   */
  method TraceEndpoint(def: GraphDef, from: LinkEndpoint, index: Option<RerouteIndex>,
                       selection: Option<SelectorResolution>)
    returns (t: RerouteTrace)
    requires index.Some? ==> Indexes(index.value, def)
    ensures if t.IsCycle() then Loops(def, selection, from, t) else Resolves(def, index.Some?, selection, from, t)
  {
    hide Reaches;
    hide Tracing;
    hide Loops;
    hide Resolves;
    hide Indexes;
    hide DriverOf;
    hide NetSource;
    hide TraceKeys;
    var current := from;
    var lastLink: Option<LinkData> := None;
    var visited: set<LinkEndpoint> := {};
    TraceStart(def, selection, from);
    while true
      invariant Tracing(def, selection, from, visited, current, lastLink)
      decreases |TraceKeys(def, selection, from) - visited|
    {
      if TraceKey(selection, current) in visited && CycleAt(selection, current).Some? {
        TraceRevisit(def, selection, from, visited, current, lastLink);
      }
      if TraceLink(def, selection, current).None? {
        TraceHalt(def, index.Some?, selection, from, visited, current, lastLink);
      }
      var driver: Option<LinkData> := None;
      match current {
        case WidgetTapRef(node, tap) =>
          if current in visited {
            return TapCycle(node, tap);
          }
          driver := InputDriverOf(def, TappedInput(node, tap), index);
          if driver.None? {
            var source := InputNetSourceOf(def, TappedInput(node, tap), index);
            return if source.Some? then Output(source.value, lastLink) else TapValue(node, tap, lastLink);
          }
        case ValueSourceRef(id) =>
          return ValueSource(id, lastLink);
        case SelectorRef(selector, candidate) =>
          if candidate.None? && selection.None? {
            return SelectorOutput(selector, lastLink);
          }
          var chosen := Chosen(selection, selector, candidate);
          if chosen.None? {
            return SelectorUnresolved(selector);
          }
          if SelectorRef(selector, chosen) in visited {
            return SelectorCycle(selector, chosen.value);
          }
          driver := SelectorDriverOf(def, selector, chosen.value, index);
          if driver.None? {
            return SelectorUndriven(selector, chosen.value);
          }
        case PortEndpoint(ref) =>
          return Output(ref, lastLink);
        case RerouteRef(id) =>
          if current in visited {
            return Cycle(id);
          }
          driver := RerouteDriverOf(def, id, index);
          if driver.None? {
            return Undriven(id);
          }
      }
      TraceCross(def, selection, from, visited, current, lastLink, driver.value);
      visited := visited + {TraceKey(selection, current)};
      lastLink := driver;
      current := driver.value.from;
    }
  }

  lemma TraceDeterministic(def: GraphDef, selection: Option<SelectorResolution>)
    ensures Deterministic(TraceNext(def, selection))
  {
  }

  /** A walk that loops never resolves: the two outcomes of a trace exclude each other. */
  lemma TraceExclusive(def: GraphDef, indexed: bool, selection: Option<SelectorResolution>, from: LinkEndpoint,
                       loop: RerouteTrace, t: RerouteTrace)
    requires Loops(def, selection, from, loop)
    ensures !Resolves(def, indexed, selection, from, t)
  {
    var next := TraceNext(def, selection);
    TraceDeterministic(def, selection);
    if Resolves(def, indexed, selection, from, t) {
      hide Deterministic;
      var h, lastLink :| Reaches(next, from, h) && TraceLink(def, selection, h).None?
        && t == TraceEnd(def, indexed, selection, h, lastLink) && Arrived(def, selection, from, h, lastLink);
      var e :| Reaches(next, from, e) && ReachesPlus(next, e, e) && CycleAt(selection, e) == Some(loop);
      var p :| Walk(next, from, p, e);
      var q :| Walk(next, from, q, h);
      assert next(h) == {};
      hide *;
      LoopNeverStops(next, from, p, e, q, h);
    }
  }

  // ---------------------------------------------------------------------
  // Where index and scan disagree

  ghost predicate FirstLister(nets: seq<NetData>, p: PortRef, i: nat) {
    i < |nets| && p in nets[i].sinks && forall k :: 0 <= k < i ==> p !in nets[k].sinks
  }

  ghost predicate LastLister(nets: seq<NetData>, p: PortRef, j: nat) {
    j < |nets| && p in nets[j].sinks && forall k :: j < k < |nets| ==> p !in nets[k].sinks
  }

  lemma {:induction false} FirstListed(nets: seq<NetData>, p: PortRef, i: nat)
    requires FirstLister(nets, p, i)
    ensures FirstNetSource(nets, p) == Some(nets[i].source)
  {
    if i > 0 {
      FirstListed(nets[1..], p, i - 1);
    }
  }

  lemma {:induction false} LastListed(nets: seq<NetData>, p: PortRef, j: nat)
    requires LastLister(nets, p, j)
    ensures LastNetSource(nets, p) == Some(nets[j].source)
    decreases |nets|
  {
    if j < |nets| - 1 {
      LastListed(nets[..|nets| - 1], p, j);
    }
  }

  /** An index and a scan pick the same source exactly when the first and the last listing net have the same. */
  lemma NetSourceAgreesExactly(def: GraphDef, p: PortRef, i: nat, j: nat)
    requires FirstLister(def.nets, p, i) && LastLister(def.nets, p, j)
    ensures NetSource(def, true, p) == NetSource(def, false, p) <==> def.nets[i].source == def.nets[j].source
  {
    FirstListed(def.nets, p, i);
    LastListed(def.nets, p, j);
  }

  /** An undriven tap on an input whose first and last listing nets have different sources. */
  predicate Ambiguous(def: GraphDef, e: LinkEndpoint) {
    e.WidgetTapRef?
    && DriverOf(def.links, PortEndpoint(TappedInput(e.node, e.tap))).None?
    && FirstNetSource(def.nets, TappedInput(e.node, e.tap)) != LastNetSource(def.nets, TappedInput(e.node, e.tap))
  }

  lemma ArrivesSomehow(def: GraphDef, selection: Option<SelectorResolution>, from: LinkEndpoint, e: LinkEndpoint)
    returns (lastLink: Option<LinkData>)
    requires Reaches(TraceNext(def, selection), from, e)
    ensures Arrived(def, selection, from, e, lastLink)
  {
    var next := TraceNext(def, selection);
    var p :| Walk(next, from, p, e);
    if p == [] {
      lastLink := None;
    } else {
      var x := LastStep(next, from, p, e);
      hide Reaches;
      lastLink := TraceLink(def, selection, x);
    }
  }

  /** Two ends of the same trace are one. */
  lemma SameEnd(def: GraphDef, selection: Option<SelectorResolution>, from: LinkEndpoint, e: LinkEndpoint,
                h: LinkEndpoint)
    requires Reaches(TraceNext(def, selection), from, e) && TraceLink(def, selection, e).None?
    requires Reaches(TraceNext(def, selection), from, h) && TraceLink(def, selection, h).None?
    ensures e == h
  {
    var next := TraceNext(def, selection);
    TraceDeterministic(def, selection);
    var p :| Walk(next, from, p, e);
    var q :| Walk(next, from, q, h);
    assert next(e) == {} && next(h) == {};
    hide *;
    EndsOnce(next, from, p, e, q, h);
  }

  lemma SameTrace(def: GraphDef, selection: Option<SelectorResolution>, from: LinkEndpoint, t: RerouteTrace)
    requires forall e :: Reaches(TraceNext(def, selection), from, e) ==> !Ambiguous(def, e)
    ensures Resolves(def, true, selection, from, t) <==> Resolves(def, false, selection, from, t)
  {
    forall e, lastLink | Reaches(TraceNext(def, selection), from, e) && TraceLink(def, selection, e).None?
      ensures TraceEnd(def, true, selection, e, lastLink) == TraceEnd(def, false, selection, e, lastLink)
    {
    }
    hide TraceEnd;
    hide TraceLink;
    hide Arrived;
    hide TraceNext;
    hide Reaches;
  }

  lemma AmbiguousDiffers(def: GraphDef, selection: Option<SelectorResolution>, from: LinkEndpoint, e: LinkEndpoint)
    requires Reaches(TraceNext(def, selection), from, e) && Ambiguous(def, e)
    ensures exists t :: Resolves(def, true, selection, from, t) && !Resolves(def, false, selection, from, t)
  {
    var lastLink := ArrivesSomehow(def, selection, from, e);
    hide Reaches;
    hide Arrived;
    hide TraceNext;
    var t := TraceEnd(def, true, selection, e, lastLink);
    assert Resolves(def, true, selection, from, t);
    if Resolves(def, false, selection, from, t) {
      var h, other :| Reaches(TraceNext(def, selection), from, h) && TraceLink(def, selection, h).None?
        && t == TraceEnd(def, false, selection, h, other) && Arrived(def, selection, from, h, other);
      SameEnd(def, selection, from, e, h);
      assert false;
    }
  }

  /**
   * A trace is the same with a built index and without one exactly when its walk does not end in an
   * undriven tap whose input's first and last listing nets have different sources.
   */
  lemma IndexIrrelevantExactly(def: GraphDef, selection: Option<SelectorResolution>, from: LinkEndpoint)
    ensures (forall t :: Resolves(def, true, selection, from, t) <==> Resolves(def, false, selection, from, t))
            <==> !exists e :: Reaches(TraceNext(def, selection), from, e) && Ambiguous(def, e)
  {
    if e :| Reaches(TraceNext(def, selection), from, e) && Ambiguous(def, e) {
      AmbiguousDiffers(def, selection, from, e);
      hide *;
    } else {
      forall t
        ensures Resolves(def, true, selection, from, t) <==> Resolves(def, false, selection, from, t)
      {
        SameTrace(def, selection, from, t);
      }
      hide *;
    }
  }

  /**
   * Two nets of different sources that list one tapped input: an index answers with the last, a
   * scan with the first.
   */
  lemma IndexAndScanDiffer(def: GraphDef, selection: Option<SelectorResolution>, node: Id, tap: Id, a: NetData,
                           b: NetData)
    requires def.links == [] && def.nets == [a, b] && a.source != b.source
    requires a.sinks == [TappedInput(node, tap)] && b.sinks == [TappedInput(node, tap)]
    ensures Resolves(def, true, selection, WidgetTapRef(node, tap), Output(b.source, None))
    ensures Resolves(def, false, selection, WidgetTapRef(node, tap), Output(a.source, None))
    ensures !Resolves(def, false, selection, WidgetTapRef(node, tap), Output(b.source, None))
  {
    var e, p := WidgetTapRef(node, tap), TappedInput(node, tap);
    FirstListed(def.nets, p, 0);
    LastListed(def.nets, p, 1);
    Refl(TraceNext(def, selection), e);
    assert Arrived(def, selection, e, e, None);
    assert TraceEnd(def, true, selection, e, None) == Output(b.source, None);
    assert TraceEnd(def, false, selection, e, None) == Output(a.source, None);
    forall h, other | Reaches(TraceNext(def, selection), e, h) && TraceLink(def, selection, h).None?
      ensures TraceEnd(def, false, selection, h, other) != Output(b.source, None)
    {
      SameEnd(def, selection, e, e, h);
    }
  }
}
