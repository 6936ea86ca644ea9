/** What the traces follow and report, link by link. */
module TraceLaws {
  import opened Graphs
  import opened Identity
  import opened Reroute
  import opened AllProducers

  ghost predicate FirstInto(links: seq<LinkData>, k: int, e: LinkEndpoint) {
    0 <= k < |links| && links[k].to == e && forall j :: 0 <= j < k ==> links[j].to != e
  }

  ghost predicate Unfed(links: seq<LinkData>, e: LinkEndpoint) {
    forall l :: l in links ==> l.to != e
  }

  /** The driver of an endpoint is the first link into it. */
  lemma DriverExactly(links: seq<LinkData>, e: LinkEndpoint, l: LinkData)
    ensures DriverOf(links, e) == Some(l) <==> exists k :: FirstInto(links, k, e) && links[k] == l
  {
    if k :| FirstInto(links, k, e) {
      assert DriverOf(links[..k], e) == None;
      FirstIsDriver(links, k, e);
      assert forall j :: FirstInto(links, j, e) ==> j == k;
    } else if DriverOf(links, e).Some? {
      FirstExists(links, e, DriverOf(links, e).value);
    }
  }

  lemma FirstExists(links: seq<LinkData>, e: LinkEndpoint, l: LinkData)
    requires l in links && l.to == e
    ensures exists k :: FirstInto(links, k, e)
  {
    var i :| 0 <= i < |links| && links[i] == l;
    for k := 0 to i
      invariant forall j :: 0 <= j < k ==> links[j].to != e
    {
      if links[k].to == e {
        assert FirstInto(links, k, e);
        return;
      }
    }
    assert FirstInto(links, i, e);
  }

  /** `target` is the endpoint whose driver the single trace follows from `x`. */
  predicate ReadsAt(selection: Option<SelectorResolution>, x: LinkEndpoint, target: LinkEndpoint) {
    || (x.RerouteRef? && target == x)
    || (x.WidgetTapRef? && target == PortEndpoint(PortRef(x.node, x.tap, [])))
    || (x.SelectorRef? && x.candidate.Some? && target == x)
    || (x.SelectorRef? && x.candidate.None? && selection.Some? && x.selector in selection.value
        && target == SelectorRef(x.selector, Some(selection.value[x.selector])))
  }

  /** The single trace crosses `l` at `x`. */
  ghost predicate Crosses(def: GraphDef, selection: Option<SelectorResolution>, x: LinkEndpoint, l: LinkData) {
    exists target, k :: ReadsAt(selection, x, target) && FirstInto(def.links, k, target) && def.links[k] == l
  }

  lemma CrossesExactly(def: GraphDef, selection: Option<SelectorResolution>, x: LinkEndpoint, l: LinkData)
    ensures TraceLink(def, selection, x) == Some(l) <==> Crosses(def, selection, x, l)
  {
    forall target
      ensures DriverOf(def.links, target) == Some(l) <==> exists k ::
              FirstInto(def.links, k, target) && def.links[k] == l
    {
      DriverExactly(def.links, target, l);
    }
    hide FirstInto;
    hide DriverOf;
    hide ReadsAt;
    ReadsOne(def, selection, x);
  }

  /** A trace reads at most one endpoint, and follows its driver. */
  lemma ReadsOne(def: GraphDef, selection: Option<SelectorResolution>, x: LinkEndpoint)
    ensures forall target ::
            ReadsAt(selection, x, target) ==> TraceLink(def, selection, x) == DriverOf(def.links, target)
    ensures TraceLink(def, selection, x).Some? ==> exists target :: ReadsAt(selection, x, target)
  {
    hide DriverOf;
    if x.SelectorRef? {
      var chosen := Chosen(selection, x.selector, x.candidate);
      assert chosen.Some? ==> ReadsAt(selection, x, SelectorRef(x.selector, chosen));
    } else if x.WidgetTapRef? {
      assert ReadsAt(selection, x, PortEndpoint(PortRef(x.node, x.tap, [])));
    } else if x.RerouteRef? {
      assert ReadsAt(selection, x, x);
    }
  }

  lemma StopsExactlyHere(def: GraphDef, selection: Option<SelectorResolution>, x: LinkEndpoint)
    ensures TraceLink(def, selection, x) == None <==>
            forall target :: ReadsAt(selection, x, target) ==> Unfed(def.links, target)
  {
    hide ReadsAt;
    hide TraceLink;
    ReadsOne(def, selection, x);
  }

  /** What a trace says when it stops at `e`, having crossed `last` there. */
  ghost predicate EndsAs(def: GraphDef, indexed: bool, selection: Option<SelectorResolution>, e: LinkEndpoint,
                         last: Option<LinkData>, t: RerouteTrace)
  {
    match e
    case PortEndpoint(ref) => t == Output(ref, last)
    case ValueSourceRef(v) => t == ValueSource(v, last)
    case RerouteRef(r) => t == Undriven(r)
    case WidgetTapRef(node, tap) =>
      var p := PortRef(node, tap, []);
      && ((forall n :: n in def.nets ==> p !in n.sinks) ==> t == TapValue(node, tap, last))
      && (forall i: nat :: indexed && LastLister(def.nets, p, i) ==> t == Output(def.nets[i].source, last))
      && (forall i: nat :: !indexed && FirstLister(def.nets, p, i) ==> t == Output(def.nets[i].source, last))
    case SelectorRef(s, c) =>
      if c.Some? then t == SelectorUndriven(s, c.value)
      else if selection.None? then t == SelectorOutput(s, last)
      else if s in selection.value then t == SelectorUndriven(s, selection.value[s])
      else t == SelectorUnresolved(s)
  }

  ghost predicate CameBy(def: GraphDef, selection: Option<SelectorResolution>, from: LinkEndpoint, e: LinkEndpoint,
                         last: Option<LinkData>)
  {
    if last.None? then e == from
    else
      && last.value.from == e
      && exists x :: Reaches(TraceNext(def, selection), from, x) && Crosses(def, selection, x, last.value)
  }

  /** The walk from `from` stops at `e`, and that is what is told. */
  ghost predicate StopsAt(def: GraphDef, indexed: bool, selection: Option<SelectorResolution>, from: LinkEndpoint,
                          t: RerouteTrace, e: LinkEndpoint, last: Option<LinkData>)
  {
    && Reaches(TraceNext(def, selection), from, e)
    && (forall target :: ReadsAt(selection, e, target) ==> Unfed(def.links, target))
    && CameBy(def, selection, from, e, last) && EndsAs(def, indexed, selection, e, last, t)
  }

  /** What a resolved trace means, link by link. */
  lemma ResolvedExactly(def: GraphDef, indexed: bool, selection: Option<SelectorResolution>, from: LinkEndpoint,
                        t: RerouteTrace)
    ensures Resolves(def, indexed, selection, from, t) <==>
            exists e, last :: StopsAt(def, indexed, selection, from, t, e, last)
  {
    forall e, last
      ensures StopsAt(def, indexed, selection, from, t, e, last) <==>
              Reaches(TraceNext(def, selection), from, e) && TraceLink(def, selection, e).None?
              && t == TraceEnd(def, indexed, selection, e, last) && Arrived(def, selection, from, e, last)
    {
      StopsExactly(def, indexed, selection, from, t, e, last);
    }
    hide StopsAt;
    hide Reaches;
    hide TraceEnd;
    hide Arrived;
  }

  lemma StopsExactly(def: GraphDef, indexed: bool, selection: Option<SelectorResolution>, from: LinkEndpoint,
                     t: RerouteTrace, e: LinkEndpoint, last: Option<LinkData>)
    ensures StopsAt(def, indexed, selection, from, t, e, last) <==>
            Reaches(TraceNext(def, selection), from, e) && TraceLink(def, selection, e).None?
            && t == TraceEnd(def, indexed, selection, e, last) && Arrived(def, selection, from, e, last)
  {
    hide Reaches;
    hide TraceLink;
    hide TraceEnd;
    hide ReadsAt;
    hide Unfed;
    hide EndsAs;
    hide Arrived;
    hide CameBy;
    ArrivedExactly(def, selection, from, e, last);
    StopsExactlyHere(def, selection, e);
    if TraceLink(def, selection, e).None? {
      EndsExactly(def, indexed, selection, e, last, t);
    }
  }

  lemma ArrivedExactly(def: GraphDef, selection: Option<SelectorResolution>, from: LinkEndpoint, e: LinkEndpoint,
                       last: Option<LinkData>)
    ensures Arrived(def, selection, from, e, last) <==> CameBy(def, selection, from, e, last)
  {
    hide Reaches;
    hide TraceLink;
    hide Crosses;
    if last.Some? {
      forall x
        ensures TraceLink(def, selection, x) == last <==> Crosses(def, selection, x, last.value)
      {
        CrossesExactly(def, selection, x, last.value);
      }
    }
  }

  lemma EndsExactly(def: GraphDef, indexed: bool, selection: Option<SelectorResolution>, e: LinkEndpoint,
                    last: Option<LinkData>, t: RerouteTrace)
    requires TraceLink(def, selection, e).None?
    ensures t == TraceEnd(def, indexed, selection, e, last) <==> EndsAs(def, indexed, selection, e, last, t)
  {
    if e.WidgetTapRef? {
      NetSourceExactly(def.nets, PortRef(e.node, e.tap, []));
    }
    hide FirstLister;
    hide LastLister;
  }

  /** With a listing net there is a first and a last one. */
  lemma NetSourceExactly(nets: seq<NetData>, p: PortRef)
    ensures FirstNetSource(nets, p).Some? ==> exists i: nat :: FirstLister(nets, p, i)
    ensures LastNetSource(nets, p).Some? ==> exists i: nat :: LastLister(nets, p, i)
    ensures forall i: nat :: FirstLister(nets, p, i) ==> FirstNetSource(nets, p) == Some(nets[i].source)
    ensures forall i: nat :: LastLister(nets, p, i) ==> LastNetSource(nets, p) == Some(nets[i].source)
  {
    forall i: nat | FirstLister(nets, p, i)
      ensures FirstNetSource(nets, p) == Some(nets[i].source)
    {
      FirstListed(nets, p, i);
    }
    forall i: nat | LastLister(nets, p, i)
      ensures LastNetSource(nets, p) == Some(nets[i].source)
    {
      LastListed(nets, p, i);
    }
    if n :| n in nets && p in n.sinks {
      ListersExist(nets, p, n);
    }
  }

  lemma ListersExist(nets: seq<NetData>, p: PortRef, n: NetData)
    requires n in nets && p in n.sinks
    ensures (exists i: nat :: FirstLister(nets, p, i)) && exists i: nat :: LastLister(nets, p, i)
  {
    var at :| 0 <= at < |nets| && nets[at] == n;
    var i := 0;
    while p !in nets[i].sinks
      invariant 0 <= i <= at && forall k :: 0 <= k < i ==> p !in nets[k].sinks
      decreases at - i
    {
      i := i + 1;
    }
    assert FirstLister(nets, p, i);
    var j := |nets| - 1;
    while p !in nets[j].sinks
      invariant at <= j < |nets| && forall k :: j < k < |nets| ==> p !in nets[k].sinks
      decreases j
    {
      j := j - 1;
    }
    assert LastLister(nets, p, j);
  }

  /** What a trace that loops names: an element it reaches and comes back to. */
  lemma LoopedExactly(def: GraphDef, selection: Option<SelectorResolution>, from: LinkEndpoint, t: RerouteTrace)
    ensures Loops(def, selection, from, t) <==>
            exists e :: Reaches(TraceNext(def, selection), from, e) && ReachesPlus(TraceNext(def, selection), e, e)
                        && NamesLoop(selection, e, t)
  {
    hide Reaches;
    hide ReachesPlus;
  }

  predicate NamesLoop(selection: Option<SelectorResolution>, e: LinkEndpoint, t: RerouteTrace) {
    match e
    case RerouteRef(r) => t == Cycle(r)
    case WidgetTapRef(node, tap) => t == TapCycle(node, tap)
    case SelectorRef(s, c) =>
      if c.Some? then t == SelectorCycle(s, c.value)
      else selection.Some? && s in selection.value && t == SelectorCycle(s, selection.value[s])
    case _ => false
  }

  /** The walk through every candidate leads from `x` to `y`. */
  ghost predicate Leads(def: GraphDef, indexed: bool, narrow: SelectorResolution, x: LinkEndpoint, y: LinkEndpoint) {
    match x
    case RerouteRef(_) => LinkLeads(def, x, y)
    case SelectorRef(s, c) =>
      if c.Some? then LinkLeads(def, x, y)
      else if s in narrow then y == SelectorRef(s, Some(narrow[s]))
      else s in def.selectors && exists c :: c in def.selectors[s] && y == SelectorRef(s, Some(c))
    case WidgetTapRef(node, tap) => indexed && TapLeads(def, PortRef(node, tap, []), y)
    case _ => false
  }

  /** The first link into `x` comes from `y`. */
  ghost predicate LinkLeads(def: GraphDef, x: LinkEndpoint, y: LinkEndpoint) {
    exists k :: FirstInto(def.links, k, x) && def.links[k].from == y
  }

  /** A tap leads to what drives its input: the first link, or else the last net that lists it. */
  ghost predicate TapLeads(def: GraphDef, p: PortRef, y: LinkEndpoint) {
    || LinkLeads(def, PortEndpoint(p), y)
    || (Unfed(def.links, PortEndpoint(p))
        && exists i: nat :: LastLister(def.nets, p, i) && y == PortEndpoint(def.nets[i].source))
  }

  lemma LinkLeadsExactly(def: GraphDef, x: LinkEndpoint, y: LinkEndpoint)
    ensures LinkLeads(def, x, y) <==> DriverOf(def.links, x).Some? && DriverOf(def.links, x).value.from == y
  {
    if k :| FirstInto(def.links, k, x) && def.links[k].from == y {
      DriverExactly(def.links, x, def.links[k]);
    }
    if DriverOf(def.links, x).Some? {
      DriverExactly(def.links, x, DriverOf(def.links, x).value);
    }
    hide DriverOf;
  }

  lemma TapLeadsExactly(def: GraphDef, narrow: SelectorResolution, e: LinkEndpoint, y: LinkEndpoint)
    requires e.WidgetTapRef?
    ensures y in Upstream(def, true, narrow, e) <==> TapLeads(def, PortRef(e.node, e.tap, []), y)
  {
    var p := PortRef(e.node, e.tap, []);
    LinkLeadsExactly(def, PortEndpoint(p), y);
    NetSourceExactly(def.nets, p);
    hide LinkLeads;
    hide LastLister;
  }

  /** One step of the walk through every candidate. */
  lemma AllStepExactly(def: GraphDef, indexed: bool, narrow: SelectorResolution, x: LinkEndpoint, y: LinkEndpoint)
    ensures y in AllNext(def, indexed, narrow)(x) <==> Leads(def, indexed, narrow, x, y)
  {
    hide LinkLeads;
    hide TapLeads;
    hide Branches;
    hide DriverOf;
    if x.WidgetTapRef? {
      TapLeadsExactly(def, narrow, x, y);
    } else if x.SelectorRef? && x.candidate.None? {
      BranchesExactly(def, narrow, x.selector, y);
    } else {
      LinkLeadsExactly(def, x, y);
    }
  }

  lemma BranchesExactly(def: GraphDef, narrow: SelectorResolution, s: Id, y: LinkEndpoint)
    ensures y in Branches(def, narrow, s) <==>
            if s in narrow then y == SelectorRef(s, Some(narrow[s]))
            else s in def.selectors && exists c :: c in def.selectors[s] && y == SelectorRef(s, Some(c))
  {
    var branches := Branches(def, narrow, s);
    if s in narrow {
      assert branches == [SelectorRef(s, Some(narrow[s]))];
    } else {
      if y in branches {
        var i :| 0 <= i < |branches| && branches[i] == y;
        assert def.selectors[s][i] in def.selectors[s];
      }
      if s in def.selectors {
        forall c | c in def.selectors[s]
          ensures SelectorRef(s, Some(c)) in branches
        {
          var i :| 0 <= i < |def.selectors[s]| && def.selectors[s][i] == c;
          assert branches[i] == SelectorRef(s, Some(c));
        }
      }
    }
  }

  /** A producer ends the walk: a port, a value source, or an alias nothing drives. */
  lemma TerminalExactly(def: GraphDef, indexed: bool, e: LinkEndpoint, t: RerouteTrace)
    ensures Terminal(def, indexed, e) == Some(t) <==>
            || (e.PortEndpoint? && t == Output(e.ref, None))
            || (e.ValueSourceRef? && t == ValueSource(e.valueSource, None))
            || (e.RerouteRef? && Unfed(def.links, e) && t == Undriven(e.reroute))
            || (e.SelectorRef? && e.candidate.Some? && Unfed(def.links, e)
                && t == SelectorUndriven(e.selector, e.candidate.value))
            || (e.WidgetTapRef? && (indexed ==> forall y :: !TapLeads(def, PortRef(e.node, e.tap, []), y))
                && t == TapValue(e.node, e.tap, None))
  {
    if e.WidgetTapRef? && indexed {
      TapStops(def, e);
    }
    hide TapLeads;
  }

  lemma TapStops(def: GraphDef, e: LinkEndpoint)
    requires e.WidgetTapRef?
    ensures Upstream(def, true, map[], e) == [] <==> forall y :: !TapLeads(def, PortRef(e.node, e.tap, []), y)
  {
    var up := Upstream(def, true, map[], e);
    forall y
      ensures y in up <==> TapLeads(def, PortRef(e.node, e.tap, []), y)
    {
      TapLeadsExactly(def, map[], e, y);
    }
    hide TapLeads;
    assert up != [] ==> up[0] in up;
  }
}
