/** What wiring edits keep: a checked definition stays checked exactly as long as no cycle is closed. */
module GuardedEdits {
  import opened Graphs
  import opened Identity
  import opened Reroute
  import opened AllProducers
  import opened ConnectGuards
  import opened Invariants

  /** A chain edge is a walk of the upstream relation. */
  lemma KeyEdgeUpstream(def: GraphDef, e: LinkEndpoint, x: LinkEndpoint)
    requires x in KeyNext(def)(e)
    ensures ReachesPlus(Structure(def), e, x)
  {
    var next := Structure(def);
    var l :| l in KeyDrivers(def, e) && IsKey(l.from) && l.from == x;
    if e.SelectorRef? {
      var k :| k in Candidates(def, e.selector) && l in DriverSet(def, SelectorRef(e.selector, Some(k)));
      var c := SelectorRef(e.selector, Some(k));
      var i :| 0 <= i < |Candidates(def, e.selector)| && Candidates(def, e.selector)[i] == k;
      assert Branches(def, map[], e.selector)[i] == c;
      assert c in next(e) && x in next(c);
      Edge(next, e, c);
      Edge(next, c, x);
      PlusTrans(next, e, c, x);
    } else {
      assert x in next(e);
      Edge(next, e, x);
    }
  }

  lemma {:induction false} KeyWalkUpstream(def: GraphDef, a: LinkEndpoint, p: seq<LinkEndpoint>, b: LinkEndpoint)
    requires Walk(KeyNext(def), a, p, b)
    ensures Reaches(Structure(def), a, b)
    decreases |p|
  {
    if p == [] {
      Refl(Structure(def), a);
    } else {
      KeyEdgeUpstream(def, a, p[0]);
      KeyWalkUpstream(def, p[0], p[1..], b);
      PlusReaches(Structure(def), a, p[0]);
      Trans(Structure(def), a, p[0], b);
    }
  }

  /** The walk of the document checks and the upstream relation have cycles together. */
  lemma ChainsAcyclicExactly(def: GraphDef, materialized: PortRef -> bool)
    requires LinksOk(def, materialized, def.links)
    ensures Acyclic(KeyNext(def)) <==> Acyclic(Structure(def))
  {
    if x :| ReachesPlus(KeyNext(def), x, x) {
      var c :| c in KeyNext(def)(x) && Reaches(KeyNext(def), c, x);
      var p :| Walk(KeyNext(def), c, p, x);
      KeyEdgeUpstream(def, x, c);
      KeyWalkUpstream(def, c, p, x);
      hide *;
      PlusTrans(Structure(def), x, c, x);
      assert !Acyclic(Structure(def)) by {
        CyclicSo(Structure(def), x);
      }
      CyclicSo(KeyNext(def), x);
    } else if x :| ReachesPlus(Structure(def), x, x) {
      StructureCycleKey(def, materialized, x);
      hide *;
      CyclicSo(Structure(def), x);
      CyclicSo(KeyNext(def), KeyOf(x));
    }
  }

  lemma CyclicSo(next: LinkEndpoint -> set<LinkEndpoint>, x: LinkEndpoint)
    requires ReachesPlus(next, x, x)
    ensures !Acyclic(next)
  {
  }

  // ---------------------------------------------------------------------
  // One driver per target

  ghost predicate OneDriver(links: seq<LinkData>) {
    forall i, j :: 0 <= i < j < |links| ==> links[i].to != links[j].to
  }

  lemma {:induction false} KeptOneDriver(links: seq<LinkData>, to: LinkEndpoint)
    requires OneDriver(links)
    ensures OneDriver(WithoutTarget(links, to))
  {
    if links != [] {
      var front, l := links[..|links| - 1], links[|links| - 1];
      assert links == front + [l];
      KeptOneDriver(front, to);
      forall x | x in WithoutTarget(front, to)
        ensures x.to != l.to
      {
        assert x in front;
      }
    }
  }

  lemma {:induction false} WithoutSinkConcat(a: seq<PortRef>, b: seq<PortRef>, p: PortRef)
    ensures WithoutSink(a + b, p) == WithoutSink(a, p) + WithoutSink(b, p)
  {
    if a == [] {
      assert a + b == b;
    } else {
      assert (a + b)[1..] == a[1..] + b;
      WithoutSinkConcat(a[1..], b, p);
    }
  }

  ghost predicate NoRepeat(sinks: seq<PortRef>) {
    forall i, j :: 0 <= i < j < |sinks| ==> sinks[i] != sinks[j]
  }

  lemma {:induction false} WithoutSinkDistinct(sinks: seq<PortRef>, p: PortRef)
    requires NoRepeat(sinks)
    ensures NoRepeat(WithoutSink(sinks, p))
  {
    if sinks != [] {
      WithoutSinkDistinct(sinks[1..], p);
      assert sinks == [sinks[0]] + sinks[1..];
      assert sinks[0] !in sinks[1..];
      PrependNew(sinks[0], WithoutSink(sinks[1..], p));
      if sinks[0] == p {
        assert WithoutSink(sinks, p) == WithoutSink(sinks[1..], p);
      }
    }
  }

  lemma PrependNew(first: PortRef, rest: seq<PortRef>)
    requires NoRepeat(rest) && first !in rest
    ensures NoRepeat([first] + rest)
  {
  }

  lemma {:induction false} SinksWithout(nets: seq<NetData>, to: LinkEndpoint)
    requires to.PortEndpoint?
    ensures SinksOf(NetsWithout(nets, to)) == WithoutSink(SinksOf(nets), to.ref)
  {
    if nets != [] {
      var front, n := nets[..|nets| - 1], nets[|nets| - 1];
      assert NetsWithout(nets, to)[..|nets| - 1] == NetsWithout(front, to);
      SinksWithout(front, to);
      WithoutSinkConcat(SinksOf(front), n.sinks, to.ref);
    }
  }

  lemma ConnectKeepsLinks(def: GraphDef, materialized: PortRef -> bool, id: Id, from: LinkEndpoint, to: LinkEndpoint)
    requires LinksOk(def, materialized, def.links) && LegalTarget(to) && !IsCandidate(from)
    requires EndpointExists(def, materialized, from) && EndpointExists(def, materialized, to)
    ensures LinksOk(Connect(def, id, from, to), materialized, Connect(def, id, from, to).links)
  {
    var after, kept, link := Connect(def, id, from, to), WithoutTarget(def.links, to), LinkData(id, from, to);
    KeptOneDriver(def.links, to);
    forall l | l in after.links
      ensures LinkOk(after, materialized, l)
    {
      if l in kept {
        assert LinkOk(def, materialized, l);
      } else {
        assert l == link;
      }
    }
    assert forall l :: l in kept ==> l.to != to;
    hide WithoutTarget;
  }

  lemma ConnectKeepsNets(def: GraphDef, materialized: PortRef -> bool, id: Id, from: LinkEndpoint, to: LinkEndpoint)
    requires NetsOk(def, materialized)
    ensures NetsOk(Connect(def, id, from, to), materialized)
  {
    var after := Connect(def, id, from, to);
    if to.PortEndpoint? {
      SinksWithout(def.nets, to);
      WithoutSinkDistinct(SinksOf(def.nets), to.ref);
    }
    forall n | n in after.nets
      ensures EndpointExists(after, materialized, PortEndpoint(n.source))
    {
      var i :| 0 <= i < |def.nets| && def.nets[i].source == n.source;
      assert def.nets[i] in def.nets;
    }
    forall p | p in SinksOf(after.nets)
      ensures EndpointExists(after, materialized, PortEndpoint(p))
    {
      assert EndpointExists(def, materialized, PortEndpoint(p));
    }
    forall l | l in after.links && l.to.PortEndpoint?
      ensures l.to.ref !in SinksOf(after.nets)
    {
      assert l in def.links || l.to == to;
    }
    hide SinksOf;
    hide WithoutTarget;
    hide WithoutSink;
  }

  /**
   * Connecting existing endpoints of a checked definition, taps included, leaves a checked definition
   * exactly when the source does not already lie downstream of what the target feeds. So what the
   * connect rules let through by mistake is what the document checks then report.
   */
  lemma ConnectWellWiredExactly(def: GraphDef, materialized: PortRef -> bool, id: Id, from: LinkEndpoint,
                                to: LinkEndpoint)
    requires WellWired(def, materialized) && Accepts(def, id, from, to)
    requires EndpointExists(def, materialized, from) && EndpointExists(def, materialized, to)
    ensures WellWired(Connect(def, id, from, to), materialized)
            <==> (Opened(to).Some? ==> !Reaches(Structure(def), from, Opened(to).value))
  {
    var after := Connect(def, id, from, to);
    ConnectKeepsLinks(def, materialized, id, from, to);
    ConnectKeepsNets(def, materialized, id, from, to);
    ChainsAcyclicExactly(def, materialized);
    ChainsAcyclicExactly(after, materialized);
    if Opened(to).Some? {
      ConnectCycleExact(def, id, from, to, Opened(to).value);
    } else {
      PlainInputKeepsAcyclic(def, id, from, to);
    }
    hide *;
    assert WellWired(after, materialized) <==> Acyclic(KeyNext(after)) by {
      WiredIf(after, materialized);
    }
    WiredIf(def, materialized);
  }

  lemma WiredIf(def: GraphDef, materialized: PortRef -> bool)
    requires LinksOk(def, materialized, def.links) && NetsOk(def, materialized)
    ensures WellWired(def, materialized) <==> Acyclic(KeyNext(def))
  {
  }

  /** An input inside a dynamic member feeds no tap. */
  lemma PlainInputKeepsAcyclic(def: GraphDef, id: Id, from: LinkEndpoint, to: LinkEndpoint)
    requires Acyclic(Structure(def)) && Opened(to).None? && to.PortEndpoint?
    ensures Acyclic(Structure(Connect(def, id, from, to)))
  {
    hide Connect;
    hide Upstream;
    var after := Connect(def, id, from, to);
    forall x: LinkEndpoint
      ensures Structure(after)(x) <= Structure(def)(x)
    {
      PortUpstream(def, id, from, to, x);
    }
    AcyclicMono(Structure(after), Structure(def));
  }

  // ---------------------------------------------------------------------
  // Any run of guarded edits

  /** The endpoints a connection names exist when it is made. */
  predicate Grounded(def: GraphDef, materialized: PortRef -> bool, edit: Edit) {
    edit.ConnectEdit? ==> EndpointExists(def, materialized, edit.from) && EndpointExists(def, materialized, edit.to)
  }

  ghost predicate AllGrounded(def: GraphDef, materialized: PortRef -> bool, edits: seq<Edit>)
    decreases |edits|
  {
    edits == [] || (Grounded(def, materialized, edits[0])
      && AllGrounded(ApplyEdit(def, edits[0]), materialized, edits[1..]))
  }

  lemma DisconnectKeepsWired(def: GraphDef, materialized: PortRef -> bool, to: LinkEndpoint)
    requires WellWired(def, materialized)
    ensures LinksOk(def.(links := WithoutTarget(def.links, to)), materialized, WithoutTarget(def.links, to))
    ensures NetsOk(def.(links := WithoutTarget(def.links, to)), materialized)
  {
    var after := def.(links := WithoutTarget(def.links, to));
    KeptOneDriver(def.links, to);
    forall l | l in after.links
      ensures LinkOk(after, materialized, l)
    {
      assert LinkOk(def, materialized, l);
    }
    SameNets(def, after, materialized);
  }

  lemma SameNets(def: GraphDef, after: GraphDef, materialized: PortRef -> bool)
    requires NetsOk(def, materialized) && after.nets == def.nets && forall l :: l in after.links ==> l in def.links
    requires forall e: LinkEndpoint :: EndpointExists(def, materialized, e) ==> EndpointExists(after, materialized, e)
    ensures NetsOk(after, materialized)
  {
    hide EndpointExists;
    hide SinksOf;
  }

  lemma NewSelectorKeepsWired(def: GraphDef, materialized: PortRef -> bool, s: Id, candidates: seq<Id>)
    requires WellWired(def, materialized) && s !in def.selectors
    ensures LinksOk(def.(selectors := def.selectors[s := candidates]), materialized, def.links)
    ensures NetsOk(def.(selectors := def.selectors[s := candidates]), materialized)
  {
    var after := def.(selectors := def.selectors[s := candidates]);
    forall l | l in after.links
      ensures LinkOk(after, materialized, l)
    {
      assert LinkOk(def, materialized, l);
    }
    SameNets(def, after, materialized);
  }

  /** One guarded edit of existing endpoints keeps every wiring check silent. */
  lemma EditKeepsWired(def: GraphDef, materialized: PortRef -> bool, edit: Edit)
    requires WellWired(def, materialized) && LegalSources(def)
    requires Grounded(def, materialized, edit) && (edit.ConnectEdit? ==> !edit.from.WidgetTapRef?)
    ensures WellWired(ApplyEdit(def, edit), materialized) && LegalSources(ApplyEdit(def, edit))
  {
    ChainsAcyclicExactly(def, materialized);
    EditKeepsAcyclic(def, edit);
    match edit {
      case ConnectEdit(id, from, to) =>
        if Accepts(def, id, from, to) {
          ConnectKeepsLinks(def, materialized, id, from, to);
          ConnectKeepsNets(def, materialized, id, from, to);
        }
      case DisconnectEdit(to) =>
        DisconnectKeepsWired(def, materialized, to);
      case AddSelectorEdit(s, candidates) =>
        if ApplyEdit(def, edit) != def {
          NewSelectorKeepsWired(def, materialized, s, candidates);
        }
    }
    ChainsAcyclicExactly(ApplyEdit(def, edit), materialized);
    hide Structure;
    hide KeyNext;
    hide Acyclic;
    hide LinksOk;
    hide NetsOk;
    hide Connect;
    hide WithoutTarget;
  }

  /**
   * However long the run, guarded edits of existing endpoints, none sourced from a tap, keep a checked
   * definition one that the document checks report nothing for.
   */
  lemma {:induction false} GuardedEditsStayChecked(def: GraphDef, materialized: PortRef -> bool, edits: seq<Edit>)
    requires WellWired(def, materialized) && LegalSources(def) && AllGrounded(def, materialized, edits)
    requires forall i :: 0 <= i < |edits| && edits[i].ConnectEdit? ==> !edits[i].from.WidgetTapRef?
    ensures WellWired(RunEdits(def, edits), materialized) && LegalSources(RunEdits(def, edits))
    decreases |edits|
  {
    if edits != [] {
      EditKeepsWired(def, materialized, edits[0]);
      hide WellWired;
      hide LegalSources;
      GuardedEditsStayChecked(ApplyEdit(def, edits[0]), materialized, edits[1..]);
    }
  }

  lemma OneTapLink(def: GraphDef, materialized: PortRef -> bool, node: Id, tap: Id, r: Id, l0: Id)
    requires def.links == [LinkData(l0, WidgetTapRef(node, tap), RerouteRef(r))] && def.nets == []
    requires node in def.nodes && r in def.reroutes
    ensures LinksOk(def, materialized, def.links) && NetsOk(def, materialized)
  {
  }

  /** The connection that closes a tap cycle passes the connect rules and fails the document checks. */
  lemma SlippedCycleIsReported(def: GraphDef, materialized: PortRef -> bool, node: Id, tap: Id, r: Id, l0: Id, l1: Id)
    requires def.links == [LinkData(l0, WidgetTapRef(node, tap), RerouteRef(r))] && def.nets == []
    requires node in def.nodes && r in def.reroutes && materialized(TappedInput(node, tap))
    ensures var from, to := RerouteRef(r), PortEndpoint(TappedInput(node, tap));
            WellWired(def, materialized) && Accepts(def, l1, from, to)
              && !WellWired(Connect(def, l1, from, to), materialized)
  {
    hide Structure;
    hide KeyNext;
    hide Acyclic;
    hide Connect;
    hide Accepts;
    hide LinksOk;
    hide NetsOk;
    hide Reaches;
    hide WellWired;
    var from, to := RerouteRef(r), PortEndpoint(TappedInput(node, tap));
    OneTapLink(def, materialized, node, tap, r, l0);
    TapCycleSlipsThrough(def, node, tap, r, l0, l1);
    ChainsAcyclicExactly(def, materialized);
    WiredIf(def, materialized);
    ConnectKeepsLinks(def, materialized, l1, from, to);
    ConnectKeepsNets(def, materialized, l1, from, to);
    ChainsAcyclicExactly(Connect(def, l1, from, to), materialized);
    WiredIf(Connect(def, l1, from, to), materialized);
  }
}
