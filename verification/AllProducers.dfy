/**
 * Every producer upstream of an endpoint, through every selector candidate: the
 * policy-independent companion of the single trace.
 */
module AllProducers {
  import opened Graphs
  import opened Identity
  import opened Reroute

  function Candidates(def: GraphDef, selector: Id): seq<Id> {
    if selector in def.selectors then def.selectors[selector] else []
  }

  /** A selector output narrows to a decided candidate, or else expands to all of them. */
  function Branches(def: GraphDef, narrow: SelectorResolution, selector: Id): seq<LinkEndpoint> {
    if selector in narrow then [SelectorRef(selector, Some(narrow[selector]))]
    else
      var cs := Candidates(def, selector);
      seq(|cs|, i requires 0 <= i < |cs| => SelectorRef(selector, Some(cs[i])))
  }

  function FromOf(driver: Option<LinkData>): seq<LinkEndpoint> {
    if driver.Some? then [driver.value.from] else []
  }

  /** The endpoints one step upstream of `e`; taps are seen through only by an index. */
  function Upstream(def: GraphDef, indexed: bool, narrow: SelectorResolution, e: LinkEndpoint): seq<LinkEndpoint> {
    match e
    case WidgetTapRef(node, tap) =>
      if !indexed then []
      else
        var driver := DriverOf(def.links, PortEndpoint(TappedInput(node, tap)));
        var source := LastNetSource(def.nets, TappedInput(node, tap));
        if driver.Some? then [driver.value.from]
        else if source.Some? then [PortEndpoint(source.value)]
        else []
    case SelectorRef(selector, candidate) =>
      if candidate.Some? then FromOf(DriverOf(def.links, e)) else Branches(def, narrow, selector)
    case RerouteRef(_) => FromOf(DriverOf(def.links, e))
    case _ => []
  }

  function AllNext(def: GraphDef, indexed: bool, narrow: SelectorResolution): LinkEndpoint -> set<LinkEndpoint> {
    e => set x | x in Upstream(def, indexed, narrow, e)
  }

  /** The terminal producer an endpoint stands for, when nothing lies further upstream. */
  function Terminal(def: GraphDef, indexed: bool, e: LinkEndpoint): Option<RerouteTrace> {
    match e
    case PortEndpoint(ref) => Some(Output(ref, None))
    case ValueSourceRef(id) => Some(ValueSource(id, None))
    case RerouteRef(id) => if DriverOf(def.links, e).None? then Some(Undriven(id)) else None
    case WidgetTapRef(node, tap) =>
      if Upstream(def, indexed, map[], e) == [] then Some(TapValue(node, tap, None)) else None
    case SelectorRef(selector, candidate) =>
      if candidate.Some? && DriverOf(def.links, e).None? then Some(SelectorUndriven(selector, candidate.value))
      else None
  }

  /** Reachable upstream through all candidates. */
  ghost predicate Above(def: GraphDef, indexed: bool, narrow: SelectorResolution, from: LinkEndpoint, e: LinkEndpoint) {
    Reaches(AllNext(def, indexed, narrow), from, e)
  }

  /** `t` is a producer somewhere upstream of `from`. */
  ghost predicate Produces(def: GraphDef, indexed: bool, narrow: SelectorResolution, from: LinkEndpoint,
                           t: RerouteTrace)
  {
    exists e :: Above(def, indexed, narrow, from, e) && Terminal(def, indexed, e) == Some(t)
  }

  /** `results` are exactly the producers upstream of `from`, each once. */
  ghost predicate AllResults(def: GraphDef, indexed: bool, narrow: SelectorResolution, from: LinkEndpoint,
                             results: seq<RerouteTrace>)
  {
    && (forall t :: t in results <==> Produces(def, indexed, narrow, from, t))
    && (forall i, j :: 0 <= i < j < |results| ==> results[i] != results[j])
  }

  // ---------------------------------------------------------------------
  // Termination: every endpoint the walk can meet

  ghost function Meetable(def: GraphDef, narrow: SelectorResolution, from: LinkEndpoint): set<LinkEndpoint> {
    {from}
    + (set l | l in def.links :: l.from)
    + (set n | n in def.nets :: PortEndpoint(n.source))
    + (set s, c | s in def.selectors && c in def.selectors[s] :: SelectorRef(s, Some(c)))
    + (set s | s in narrow :: SelectorRef(s, Some(narrow[s])))
  }

  lemma Meets(def: GraphDef, indexed: bool, narrow: SelectorResolution, from: LinkEndpoint, e: LinkEndpoint,
              x: LinkEndpoint)
    requires x in Upstream(def, indexed, narrow, e)
    ensures x in Meetable(def, narrow, from)
  {
    if e.SelectorRef? && e.candidate.None? {
      var i :| 0 <= i < |Branches(def, narrow, e.selector)| && Branches(def, narrow, e.selector)[i] == x;
      if e.selector !in narrow {
        assert Candidates(def, e.selector)[i] in Candidates(def, e.selector);
      }
    } else if e.WidgetTapRef? && DriverOf(def.links, PortEndpoint(TappedInput(e.node, e.tap))).None? {
      var n :| n in def.nets && PortEndpoint(n.source) == x;
    }
  }

  // ---------------------------------------------------------------------
  // The walk

  /** The structural elements on the wire: reroutes, selectors with the candidates walked, value sources. */
  datatype TraceVia = TraceVia(reroutes: set<Id>, selectors: map<Id, set<Id>>, valueSources: set<Id>)

  function ViaCandidate(via: TraceVia, selector: Id, candidate: Id): TraceVia {
    var cs := if selector in via.selectors then via.selectors[selector] else {};
    via.(selectors := via.selectors[selector := cs + {candidate}])
  }

  /** `via` holds exactly the structural elements among `seen`. */
  ghost predicate Collects(via: TraceVia, seen: set<LinkEndpoint>) {
    && (forall r :: r in via.reroutes <==> RerouteRef(r) in seen)
    && (forall v :: v in via.valueSources <==> ValueSourceRef(v) in seen)
    && (forall s, c :: s in via.selectors && c in via.selectors[s] <==> SelectorRef(s, Some(c)) in seen)
    && (forall s :: s in via.selectors <==> SelectorRef(s, None) in seen || exists c :: SelectorRef(s, Some(c)) in seen)
  }

  /** `via` is exactly the set of structural elements upstream of `from`. */
  ghost predicate AllVia(def: GraphDef, indexed: bool, narrow: SelectorResolution, from: LinkEndpoint, via: TraceVia) {
    && (forall r :: r in via.reroutes <==> Above(def, indexed, narrow, from, RerouteRef(r)))
    && (forall v :: v in via.valueSources <==> Above(def, indexed, narrow, from, ValueSourceRef(v)))
    && (forall s, c ::
       s in via.selectors && c in via.selectors[s] <==> Above(def, indexed, narrow, from, SelectorRef(s, Some(c))))
    && (forall s :: s in via.selectors <==>
          Above(def, indexed, narrow, from, SelectorRef(s, None)) || exists c ::
            Above(def, indexed, narrow, from, SelectorRef(s, Some(c))))
  }

  /** `results` lists, without repetition, exactly the terminals among `seen`. */
  ghost predicate Emitted(def: GraphDef, indexed: bool, results: seq<RerouteTrace>, seen: set<LinkEndpoint>) {
    && (forall i, j :: 0 <= i < j < |results| ==> results[i] != results[j])
    && (forall t :: t in results <==> exists e :: e in seen && Terminal(def, indexed, e) == Some(t))
  }

  /** Only reroutes, selectors and taps are marked; ports and value sources may be met again. */
  predicate Marked(e: LinkEndpoint) {
    e.RerouteRef? || e.SelectorRef? || e.WidgetTapRef?
  }

  ghost predicate Marks(seen: set<LinkEndpoint>, visited: set<LinkEndpoint>) {
    forall e :: e in visited <==> e in seen && Marked(e)
  }

  lemma MarkStep(seen: set<LinkEndpoint>, visited: set<LinkEndpoint>, e: LinkEndpoint)
    requires Marks(seen, visited)
    ensures Marks(seen + {e}, if Marked(e) then visited + {e} else visited)
    ensures Marked(e) && e !in visited ==> e !in seen
  {
  }

  ghost predicate Walking(def: GraphDef, indexed: bool, narrow: SelectorResolution, from: LinkEndpoint,
                          seen: set<LinkEndpoint>, stack: seq<LinkEndpoint>, visited: set<LinkEndpoint>)
  {
    && Frontier(AllNext(def, indexed, narrow), from, seen, stack)
    && Marks(seen, visited)
    && seen <= Meetable(def, narrow, from)
    && (forall e :: e in stack ==> e in Meetable(def, narrow, from))
  }

  lemma WalkStart(def: GraphDef, indexed: bool, narrow: SelectorResolution, from: LinkEndpoint)
    ensures Walking(def, indexed, narrow, from, {}, [from], {})
    ensures Emitted(def, indexed, [], {}) && Collects(TraceVia({}, map[], {}), {})
  {
    FrontierStart(AllNext(def, indexed, narrow), from);
  }

  lemma WalkSkip(def: GraphDef, indexed: bool, narrow: SelectorResolution, from: LinkEndpoint,
                 seen: set<LinkEndpoint>, stack: seq<LinkEndpoint>, visited: set<LinkEndpoint>, e: LinkEndpoint)
    requires Walking(def, indexed, narrow, from, seen, stack + [e], visited) && e in visited
    ensures Walking(def, indexed, narrow, from, seen, stack, visited)
  {
    hide Reaches;
    FrontierSkip(AllNext(def, indexed, narrow), from, seen, stack, e);
    assert forall x :: x in stack ==> x in stack + [e];
  }

  /** Popping `e` and pushing its upstream endpoints, in either order. */
  lemma WalkPush(def: GraphDef, indexed: bool, narrow: SelectorResolution, from: LinkEndpoint, seen: set<LinkEndpoint>,
                 stack: seq<LinkEndpoint>, visited: set<LinkEndpoint>, e: LinkEndpoint, more: seq<LinkEndpoint>)
    requires Walking(def, indexed, narrow, from, seen, stack + [e], visited) && e !in visited
    requires forall x :: x in more <==> x in Upstream(def, indexed, narrow, e)
    ensures Walking(def, indexed, narrow, from, seen + {e}, stack + more, if Marked(e) then visited + {e} else visited)
  {
    hide Reaches;
    hide Upstream;
    PushFrontier(def, indexed, narrow, from, seen, stack, e, more);
    assert e in stack + [e];
    MeetsAll(def, indexed, narrow, from, e, stack, more);
    MarkStep(seen, visited, e);
    hide Frontier;
    hide Meetable;
    hide Marks;
    hide AllNext;
  }

  /** Processing a marked endpoint leaves fewer to meet; processing another leaves no more. */
  lemma WalkShrinks(def: GraphDef, indexed: bool, narrow: SelectorResolution, from: LinkEndpoint,
                    seen: set<LinkEndpoint>, stack: seq<LinkEndpoint>, visited: set<LinkEndpoint>, e: LinkEndpoint)
    requires Walking(def, indexed, narrow, from, seen, stack + [e], visited) && e !in visited
    ensures var all := Meetable(def, narrow, from);
            |all - (seen + {e})| <= |all - seen| && (Marked(e) ==> |all - (seen + {e})| < |all - seen|)
  {
    hide Frontier;
    hide Meetable;
    assert e in stack + [e];
    if e !in seen {
      KeysShrink(Meetable(def, narrow, from), seen, e);
    } else {
      assert seen + {e} == seen;
    }
  }

  lemma PushFrontier(def: GraphDef, indexed: bool, narrow: SelectorResolution, from: LinkEndpoint,
                     seen: set<LinkEndpoint>, stack: seq<LinkEndpoint>, e: LinkEndpoint, more: seq<LinkEndpoint>)
    requires Frontier(AllNext(def, indexed, narrow), from, seen, stack + [e])
    requires forall x :: x in more <==> x in Upstream(def, indexed, narrow, e)
    ensures Frontier(AllNext(def, indexed, narrow), from, seen + {e}, stack + more)
  {
    hide Reaches;
    hide Frontier;
    hide Upstream;
    FrontierStep(AllNext(def, indexed, narrow), from, seen, stack, e, more);
  }

  lemma MeetsAll(def: GraphDef, indexed: bool, narrow: SelectorResolution, from: LinkEndpoint, e: LinkEndpoint,
                 stack: seq<LinkEndpoint>, more: seq<LinkEndpoint>)
    requires forall x :: x in more ==> x in Upstream(def, indexed, narrow, e)
    requires forall x :: x in stack + [e] ==> x in Meetable(def, narrow, from)
    ensures forall x :: x in stack + more ==> x in Meetable(def, narrow, from)
  {
    hide Meetable;
    hide Upstream;
    forall x | x in stack + more
      ensures x in Meetable(def, narrow, from)
    {
      if x in stack {
        assert x in stack + [e];
      } else {
        Meets(def, indexed, narrow, from, e, x);
      }
    }
  }

  lemma WalkDone(def: GraphDef, indexed: bool, narrow: SelectorResolution, from: LinkEndpoint,
                 seen: set<LinkEndpoint>, visited: set<LinkEndpoint>)
    requires Walking(def, indexed, narrow, from, seen, [], visited)
    ensures forall e :: e in seen <==> Above(def, indexed, narrow, from, e)
  {
    hide Reaches;
    FrontierDone(AllNext(def, indexed, narrow), from, seen);
  }

  lemma WalkResults(def: GraphDef, indexed: bool, narrow: SelectorResolution, from: LinkEndpoint,
                    seen: set<LinkEndpoint>, results: seq<RerouteTrace>, via: TraceVia)
    requires forall e :: e in seen <==> Above(def, indexed, narrow, from, e)
    requires Emitted(def, indexed, results, seen) && Collects(via, seen)
    ensures AllResults(def, indexed, narrow, from, results) && AllVia(def, indexed, narrow, from, via)
  {
    hide Above;
    hide Terminal;
  }

  /** Appends `t` unless it was emitted before. */
  function Emit(results: seq<RerouteTrace>, t: RerouteTrace): seq<RerouteTrace> {
    if t in results then results else results + [t]
  }

  function EmitOption(results: seq<RerouteTrace>, t: Option<RerouteTrace>): seq<RerouteTrace> {
    if t.Some? then Emit(results, t.value) else results
  }

  lemma EmitStep(def: GraphDef, indexed: bool, results: seq<RerouteTrace>, seen: set<LinkEndpoint>, e: LinkEndpoint)
    requires Emitted(def, indexed, results, seen)
    ensures Emitted(def, indexed, EmitOption(results, Terminal(def, indexed, e)), seen + {e})
  {
    hide Terminal;
  }

  /** What the walk adds to `via` when it processes `e`. */
  function ViaStep(via: TraceVia, e: LinkEndpoint): TraceVia {
    match e
    case RerouteRef(r) => via.(reroutes := via.reroutes + {r})
    case ValueSourceRef(v) => via.(valueSources := via.valueSources + {v})
    case SelectorRef(s, Some(c)) => ViaCandidate(via, s, c)
    case SelectorRef(s, None) => if s in via.selectors then via else via.(selectors := via.selectors[s := {}])
    case _ => via
  }

  lemma ViaStepCollects(via: TraceVia, seen: set<LinkEndpoint>, e: LinkEndpoint)
    requires Collects(via, seen)
    ensures Collects(ViaStep(via, e), seen + {e})
  {
  }

  /**
   * Terminates on every definition. The results are exactly the producers reachable
   * upstream through all (or the narrowed) candidates, each once, and `via` is exactly
   * the set of structural elements on the way.
   */
  method TraceEndpointAll(def: GraphDef, from: LinkEndpoint, index: Option<RerouteIndex>, narrow: SelectorResolution)
    returns (results: seq<RerouteTrace>, via: TraceVia)
    requires index.Some? ==> Indexes(index.value, def)
    ensures AllResults(def, index.Some?, narrow, from, results)
    ensures AllVia(def, index.Some?, narrow, from, via)
  {
    hide *;
    results, via := [], TraceVia({}, map[], {});
    var visited: set<LinkEndpoint> := {};
    var stack := [from];
    ghost var seen: set<LinkEndpoint> := {};
    WalkStart(def, index.Some?, narrow, from);
    while |stack| > 0
      invariant Walking(def, index.Some?, narrow, from, seen, stack, visited)
      invariant Emitted(def, index.Some?, results, seen)
      invariant Collects(via, seen)
      decreases |Meetable(def, narrow, from) - seen|, |stack|
    {
      var current := stack[|stack| - 1];
      assert stack == stack[..|stack| - 1] + [current];
      stack := stack[..|stack| - 1];
      if current in visited {
        WalkSkip(def, index.Some?, narrow, from, seen, stack, visited, current);
        continue;
      }
      var more, t := Expand(def, index, narrow, current);
      WalkPush(def, index.Some?, narrow, from, seen, stack, visited, current, more);
      WalkShrinks(def, index.Some?, narrow, from, seen, stack, visited, current);
      EmitStep(def, index.Some?, results, seen, current);
      ViaStepCollects(via, seen, current);
      results := EmitOption(results, t);
      via := ViaStep(via, current);
      visited := if Marked(current) then visited + {current} else visited;
      stack := stack + more;
      seen := seen + {current};
    }
    assert stack == [];
    WalkDone(def, index.Some?, narrow, from, seen, visited);
    WalkResults(def, index.Some?, narrow, from, seen, results, via);
  }

  /** The endpoints to push for `e`, in reverse so that the first is processed first, and the terminal it emits. */
  method Expand(def: GraphDef, index: Option<RerouteIndex>, narrow: SelectorResolution, e: LinkEndpoint)
    returns (more: seq<LinkEndpoint>, t: Option<RerouteTrace>)
    requires index.Some? ==> Indexes(index.value, def)
    ensures forall x :: x in more <==> x in Upstream(def, index.Some?, narrow, e)
    ensures t == Terminal(def, index.Some?, e)
    ensures !Marked(e) ==> more == []
  {
    more, t := [], None;
    match e {
      case WidgetTapRef(node, tap) =>
        if index.None? { return [], Some(TapValue(node, tap, None)); }
        var ref := TappedInput(node, tap);
        IndexLookup(def, index.value, ref);
        if ref in index.value.inputDriverOf {
          more := [index.value.inputDriverOf[ref].from];
        } else if ref in index.value.netSourceOf {
          more := [PortEndpoint(index.value.netSourceOf[ref])];
        } else {
          t := Some(TapValue(node, tap, None));
        }
      case ValueSourceRef(id) =>
        t := Some(ValueSource(id, None));
      case SelectorRef(selector, Some(candidate)) =>
        var driver := SelectorDriverOf(def, selector, candidate, index);
        if driver.Some? { more := [driver.value.from]; } else { t := Some(SelectorUndriven(selector, candidate)); }
      case SelectorRef(selector, None) =>
        if selector in narrow {
          more := [SelectorRef(selector, Some(narrow[selector]))];
        } else {
          var candidates := Candidates(def, selector);
          ghost var branches := Branches(def, narrow, selector);
          for i := |candidates| downto 0
            invariant forall x :: x in more <==> x in branches[i..]
          {
            more := more + [SelectorRef(selector, Some(candidates[i]))];
            assert branches[i..] == [branches[i]] + branches[i + 1..];
          }
          assert branches[0..] == branches;
        }
      case PortEndpoint(ref) =>
        t := Some(Output(ref, None));
      case RerouteRef(id) =>
        var driver := RerouteDriverOf(def, id, index);
        if driver.Some? { more := [driver.value.from]; } else { t := Some(Undriven(id)); }
    }
  }

  lemma IndexLookup(def: GraphDef, index: RerouteIndex, ref: PortRef)
    requires Indexes(index, def)
    ensures Lookup(index.inputDriverOf, ref) == DriverOf(def.links, PortEndpoint(ref))
    ensures Lookup(index.netSourceOf, ref) == LastNetSource(def.nets, ref)
  {
  }

  // ---------------------------------------------------------------------
  // The single trace against the policy-independent one

  /** `narrow` decides some selectors as `selection` does; the rest choose a declared candidate. */
  ghost predicate Decides(def: GraphDef, selection: Option<SelectorResolution>, narrow: SelectorResolution) {
    && (forall s :: s in narrow ==> selection.Some? && s in selection.value && selection.value[s] == narrow[s])
    && (selection.Some? ==> forall s ::
       s in selection.value && s !in narrow ==> selection.value[s] in Candidates(def, s))
  }

  /** A trace result without its provenance link. */
  function Anonymous(t: RerouteTrace): RerouteTrace {
    match t
    case Output(ref, _) => Output(ref, None)
    case ValueSource(id, _) => ValueSource(id, None)
    case TapValue(node, input, _) => TapValue(node, input, None)
    case SelectorOutput(id, _) => SelectorOutput(id, None)
    case _ => t
  }

  lemma ChosenBranch(def: GraphDef, selection: Option<SelectorResolution>, narrow: SelectorResolution, e: LinkEndpoint)
    requires Decides(def, selection, narrow) && e.SelectorRef? && Chosen(selection, e.selector, e.candidate).Some?
    ensures Above(def, true, narrow, e, SelectorRef(e.selector, Chosen(selection, e.selector, e.candidate)))
  {
    var x := SelectorRef(e.selector, Chosen(selection, e.selector, e.candidate));
    Refl(AllNext(def, true, narrow), e);
    if e.candidate.None? {
      var branches := Branches(def, narrow, e.selector);
      if e.selector !in narrow {
        var i :| 0 <= i < |Candidates(def, e.selector)| && Candidates(def, e.selector)[i] == x.candidate.value;
        assert branches[i] == x;
      }
      assert x in branches;
      Edge(AllNext(def, true, narrow), e, x);
    }
  }

  lemma TraceEdgeWithin(def: GraphDef, selection: Option<SelectorResolution>, narrow: SelectorResolution,
                        e: LinkEndpoint, link: LinkData)
    requires Decides(def, selection, narrow) && TraceLink(def, selection, e) == Some(link)
    ensures Above(def, true, narrow, e, link.from) && ReachesPlus(AllNext(def, true, narrow), e, link.from)
  {
    var next := AllNext(def, true, narrow);
    var x := if e.SelectorRef? then SelectorRef(e.selector, Chosen(selection, e.selector, e.candidate)) else e;
    if e.SelectorRef? {
      ChosenBranch(def, selection, narrow, e);
    } else {
      Refl(next, e);
    }
    assert link.from in next(x);
    Edge(next, x, link.from);
    PlusTrans(next, e, x, link.from);
    PlusReaches(next, e, link.from);
  }

  lemma {:induction false} TraceWalkWithin(def: GraphDef, selection: Option<SelectorResolution>,
                                           narrow: SelectorResolution, a: LinkEndpoint, p: seq<LinkEndpoint>,
                                           b: LinkEndpoint)
    requires Decides(def, selection, narrow) && Walk(TraceNext(def, selection), a, p, b)
    ensures Above(def, true, narrow, a, b)
    decreases |p|
  {
    if p == [] {
      Refl(AllNext(def, true, narrow), a);
    } else {
      TraceEdgeWithin(def, selection, narrow, a, TraceLink(def, selection, a).value);
      TraceWalkWithin(def, selection, narrow, p[0], p[1..], b);
      Trans(AllNext(def, true, narrow), a, p[0], b);
    }
  }

  /** What a trace reports where it ends is the terminal of a branch the walk takes from there. */
  lemma EndTerminal(def: GraphDef, selection: Option<SelectorResolution>, narrow: SelectorResolution, e: LinkEndpoint,
                    lastLink: Option<LinkData>)
    returns (x: LinkEndpoint)
    requires Decides(def, selection, narrow) && TraceLink(def, selection, e).None?
    requires var t := TraceEnd(def, true, selection, e, lastLink); !t.SelectorOutput? && !t.SelectorUnresolved?
    ensures Reaches(AllNext(def, true, narrow), e, x)
    ensures Terminal(def, true, x) == Some(Anonymous(TraceEnd(def, true, selection, e, lastLink)))
  {
    hide Reaches;
    var next := AllNext(def, true, narrow);
    x := e;
    if e.SelectorRef? {
      ChosenBranch(def, selection, narrow, e);
      x := SelectorRef(e.selector, Chosen(selection, e.selector, e.candidate));
    } else if e.WidgetTapRef? && LastNetSource(def.nets, TappedInput(e.node, e.tap)).Some? {
      x := PortEndpoint(LastNetSource(def.nets, TappedInput(e.node, e.tap)).value);
      Edge(next, e, x);
    } else {
      Refl(next, e);
    }
  }

  /**
   * Whatever the selection picks, a resolved trace names a producer that the
   * policy-independent walk lists too, up to the provenance link.
   */
  lemma TraceSubsumed(def: GraphDef, selection: Option<SelectorResolution>, narrow: SelectorResolution,
                      from: LinkEndpoint, t: RerouteTrace)
    requires Decides(def, selection, narrow) && Resolves(def, true, selection, from, t)
    requires !t.SelectorOutput? && !t.SelectorUnresolved?
    ensures Produces(def, true, narrow, from, Anonymous(t))
  {
    hide TraceEnd;
    hide TraceLink;
    hide TraceNext;
    hide AllNext;
    hide Terminal;
    hide Arrived;
    hide Walk;
    var e, lastLink :| Reaches(TraceNext(def, selection), from, e) && TraceLink(def, selection, e).None?
      && t == TraceEnd(def, true, selection, e, lastLink) && Arrived(def, selection, from, e, lastLink);
    var p :| Walk(TraceNext(def, selection), from, p, e);
    TraceWalkWithin(def, selection, narrow, from, p, e);
    var x := EndTerminal(def, selection, narrow, e, lastLink);
    Trans(AllNext(def, true, narrow), from, e, x);
  }

  /** In an acyclic definition no trace loops, whatever declared candidates are chosen. */
  lemma AcyclicNeverLoops(def: GraphDef, selection: Option<SelectorResolution>, from: LinkEndpoint, t: RerouteTrace)
    requires Acyclic(AllNext(def, true, map[])) && Decides(def, selection, map[])
    ensures !Loops(def, selection, from, t)
  {
    if Loops(def, selection, from, t) {
      var e :| ReachesPlus(TraceNext(def, selection), e, e);
      LoopWithin(def, selection, e);
    }
  }

  lemma LoopWithin(def: GraphDef, selection: Option<SelectorResolution>, e: LinkEndpoint)
    requires Decides(def, selection, map[]) && ReachesPlus(TraceNext(def, selection), e, e)
    ensures ReachesPlus(AllNext(def, true, map[]), e, e)
  {
    var c :| c in TraceNext(def, selection)(e) && Reaches(TraceNext(def, selection), c, e);
    var p :| Walk(TraceNext(def, selection), c, p, e);
    TraceEdgeWithin(def, selection, map[], e, TraceLink(def, selection, e).value);
    TraceWalkWithin(def, selection, map[], c, p, e);
    PlusTrans(AllNext(def, true, map[]), e, c, e);
  }

  /** A tap whose input has a driver or a net source: only an index sees through it. */
  predicate SeenThrough(def: GraphDef, e: LinkEndpoint) {
    e.WidgetTapRef?
    && (DriverOf(def.links, PortEndpoint(TappedInput(e.node, e.tap))).Some?
        || LastNetSource(def.nets, TappedInput(e.node, e.tap)).Some?)
  }

  lemma SameStep(def: GraphDef, narrow: SelectorResolution, e: LinkEndpoint)
    requires !SeenThrough(def, e)
    ensures Upstream(def, false, narrow, e) == Upstream(def, true, narrow, e)
    ensures Terminal(def, false, e) == Terminal(def, true, e)
  {
  }

  lemma {:induction false} SameWalk(def: GraphDef, narrow: SelectorResolution, a: LinkEndpoint,
                                    p: seq<LinkEndpoint>, b: LinkEndpoint)
    requires forall e :: Above(def, false, narrow, a, e) ==> !SeenThrough(def, e)
    ensures Walk(AllNext(def, false, narrow), a, p, b) <==> Walk(AllNext(def, true, narrow), a, p, b)
    decreases |p|
  {
    var n0, n1 := AllNext(def, false, narrow), AllNext(def, true, narrow);
    if p != [] {
      Refl(n0, a);
      assert Above(def, false, narrow, a, a);
      SameStep(def, narrow, a);
      assert n0(a) == n1(a);
      hide SeenThrough;
      hide Upstream;
      if p[0] in n0(a) {
        Edge(n0, a, p[0]);
        forall e | Above(def, false, narrow, p[0], e)
          ensures !SeenThrough(def, e)
        {
          Trans(n0, a, p[0], e);
          assert Above(def, false, narrow, a, e);
        }
        SameWalk(def, narrow, p[0], p[1..], b);
      }
    }
  }

  lemma SameProducers(def: GraphDef, narrow: SelectorResolution, from: LinkEndpoint, t: RerouteTrace)
    requires forall e :: Above(def, false, narrow, from, e) ==> !SeenThrough(def, e)
    ensures Produces(def, false, narrow, from, t) <==> Produces(def, true, narrow, from, t)
  {
    var n0, n1 := AllNext(def, false, narrow), AllNext(def, true, narrow);
    forall e
      ensures Above(def, false, narrow, from, e) <==> Above(def, true, narrow, from, e)
    {
      forall p
        ensures Walk(n0, from, p, e) <==> Walk(n1, from, p, e)
      {
        SameWalk(def, narrow, from, p, e);
      }
      hide *;
    }
    forall e | Above(def, false, narrow, from, e)
      ensures Terminal(def, false, e) == Terminal(def, true, e)
    {
      SameStep(def, narrow, e);
    }
    hide Terminal;
    hide Above;
  }

  /** A tap that only an index sees through is its own producer without one, and never with one. */
  lemma SeenThroughDiffers(def: GraphDef, narrow: SelectorResolution, from: LinkEndpoint, e: LinkEndpoint)
    requires Above(def, false, narrow, from, e) && SeenThrough(def, e)
    ensures Produces(def, false, narrow, from, TapValue(e.node, e.tap, None))
    ensures !Produces(def, true, narrow, from, TapValue(e.node, e.tap, None))
  {
    hide Above;
    assert Terminal(def, false, e) == Some(TapValue(e.node, e.tap, None));
  }

  /**
   * Without an index the walk looks through no tap. It lists the same producers as with one exactly
   * when none of the taps it meets has a driver or a net source.
   */
  lemma UnindexedAgreesExactly(def: GraphDef, narrow: SelectorResolution, from: LinkEndpoint)
    ensures (forall t :: Produces(def, false, narrow, from, t) <==> Produces(def, true, narrow, from, t))
            <==> !exists e :: Above(def, false, narrow, from, e) && SeenThrough(def, e)
  {
    if e :| Above(def, false, narrow, from, e) && SeenThrough(def, e) {
      SeenThroughDiffers(def, narrow, from, e);
      hide *;
    } else {
      forall t
        ensures Produces(def, false, narrow, from, t) <==> Produces(def, true, narrow, from, t)
      {
        SameProducers(def, narrow, from, t);
      }
      hide *;
    }
  }

  /**
   * Without an index the walk never looks through a tap: a tap that a link drives is
   * reported as its own value instead of as the producer behind it.
   */
  lemma UnindexedTap(def: GraphDef, narrow: SelectorResolution, node: Id, tap: Id, driver: LinkData, ref: PortRef)
    requires DriverOf(def.links, PortEndpoint(TappedInput(node, tap))) == Some(driver)
             && driver.from == PortEndpoint(ref)
    ensures Produces(def, false, narrow, WidgetTapRef(node, tap), TapValue(node, tap, None))
    ensures Produces(def, true, narrow, WidgetTapRef(node, tap), Output(ref, None))
    ensures !Produces(def, true, narrow, WidgetTapRef(node, tap), TapValue(node, tap, None))
  {
    var e := WidgetTapRef(node, tap);
    var n0, n1 := AllNext(def, false, narrow), AllNext(def, true, narrow);
    Refl(n0, e);
    assert Above(def, false, narrow, e, e);
    Edge(n1, e, PortEndpoint(ref));
    assert Above(def, true, narrow, e, PortEndpoint(ref));
    forall x | Above(def, true, narrow, e, x)
      ensures Terminal(def, true, x) != Some(TapValue(node, tap, None))
    {
      if x.WidgetTapRef? && x != e {
        Stays(n1, {e, PortEndpoint(ref)}, e, x);
      }
    }
  }
}
