/**
 * The wiring part of document validation: endpoints exist, sources and targets are legal,
 * every input, reroute and candidate has one driver, and alias chains are acyclic.
 */
module Invariants {
  import opened Graphs
  import opened Identity
  import opened Reroute
  import opened AllProducers

  datatype Diagnostic =
    | Dangling(e: LinkEndpoint)
    | SelectorCandidateSource(link: LinkData)
    | ValueSourceTarget(link: LinkData)
    | TapTarget(link: LinkData)
    | SelectorOutputTarget(link: LinkData)
    | SelectorMultiDriver(selector: Id, candidate: Id)
    | RerouteMultiDriver(reroute: Id)
    | InputMultiDriver(ref: PortRef)
    | ChainCycle(key: LinkEndpoint)

  // ---------------------------------------------------------------------
  // What the checks decide, stated without the checks

  /** `materialized` decides whether a dynamic port address resolves on its node. */
  predicate EndpointExists(def: GraphDef, materialized: PortRef -> bool, e: LinkEndpoint) {
    match e
    case RerouteRef(r) => r in def.reroutes
    case ValueSourceRef(v) => v in def.valueSources
    case SelectorRef(s, c) => s in def.selectors && (c.Some? ==> c.value in def.selectors[s])
    case WidgetTapRef(node, _) => node in def.nodes
    case PortEndpoint(ref) => ref.node in def.nodes && materialized(ref)
  }

  predicate LegalTarget(e: LinkEndpoint) {
    e.PortEndpoint? || e.RerouteRef? || (e.SelectorRef? && e.candidate.Some?)
  }

  predicate IsCandidate(e: LinkEndpoint) {
    e.SelectorRef? && e.candidate.Some?
  }

  ghost predicate LinkOk(def: GraphDef, materialized: PortRef -> bool, l: LinkData) {
    && EndpointExists(def, materialized, l.from) && !IsCandidate(l.from)
    && EndpointExists(def, materialized, l.to) && LegalTarget(l.to)
  }

  /** The links are well formed and no two share a target. */
  ghost predicate LinksOk(def: GraphDef, materialized: PortRef -> bool, links: seq<LinkData>) {
    && (forall l :: l in links ==> LinkOk(def, materialized, l))
    && (forall i, j :: 0 <= i < j < |links| ==> links[i].to != links[j].to)
  }

  /** All net sinks, in the order the check meets them. */
  function SinksOf(nets: seq<NetData>): seq<PortRef> {
    if nets == [] then [] else SinksOf(nets[..|nets| - 1]) + nets[|nets| - 1].sinks
  }

  /** Net endpoints exist, and a sink is driven by nothing else. */
  ghost predicate NetsOk(def: GraphDef, materialized: PortRef -> bool) {
    && SourcesOk(def, materialized, def.nets)
    && SinksOk(def, materialized, SinksOf(def.nets))
  }

  ghost predicate SourcesOk(def: GraphDef, materialized: PortRef -> bool, nets: seq<NetData>) {
    forall n :: n in nets ==> EndpointExists(def, materialized, PortEndpoint(n.source))
  }

  ghost predicate SinksOk(def: GraphDef, materialized: PortRef -> bool, sinks: seq<PortRef>) {
    && (forall p :: p in sinks ==> EndpointExists(def, materialized, PortEndpoint(p)))
    && (forall i, j :: 0 <= i < j < |sinks| ==> sinks[i] != sinks[j])
    && (forall l :: l in def.links && l.to.PortEndpoint? ==> l.to.ref !in sinks)
  }

  /** An alias a chain passes through: a reroute, a selector output or a tap. */
  predicate IsKey(e: LinkEndpoint) {
    e.RerouteRef? || (e.SelectorRef? && e.candidate.None?) || e.WidgetTapRef?
  }

  /** Drivers of an alias: a selector output depends on every declared candidate. */
  ghost function KeyDrivers(def: GraphDef, e: LinkEndpoint): set<LinkData> {
    match e
    case RerouteRef(r) => if r in def.reroutes then DriverSet(def, e) else {}
    case SelectorRef(s, c) =>
      if c.None? then set k, l | k in Candidates(def, s) && l in DriverSet(def, SelectorRef(s, Some(k))) :: l else {}
    case WidgetTapRef(node, tap) => DriverSet(def, PortEndpoint(TappedInput(node, tap)))
    case _ => {}
  }

  ghost function DriverSet(def: GraphDef, e: LinkEndpoint): set<LinkData> {
    var d := DriverOf(def.links, e);
    if d.Some? then {d.value} else {}
  }

  /** The chain relation: from an alias to the aliases its drivers come from. */
  ghost function KeyNext(def: GraphDef): LinkEndpoint -> set<LinkEndpoint> {
    e => set l | l in KeyDrivers(def, e) && IsKey(l.from) :: l.from
  }

  ghost predicate WellWired(def: GraphDef, materialized: PortRef -> bool) {
    && LinksOk(def, materialized, def.links)
    && NetsOk(def, materialized)
    && Acyclic(KeyNext(def))
  }

  // ---------------------------------------------------------------------
  // What is reported

  ghost predicate Targeted(links: seq<LinkData>, e: LinkEndpoint) {
    exists l :: l in links && l.to == e
  }

  /** What a link is reported for, after the links before it. */
  ghost predicate LinkTells(def: GraphDef, materialized: PortRef -> bool, before: seq<LinkData>, link: LinkData,
                            d: Diagnostic)
  {
    var arrives := EndpointExists(def, materialized, link.to);
    match d
    case Dangling(e) => (e == link.from || e == link.to) && !EndpointExists(def, materialized, e)
    case SelectorCandidateSource(l) =>
      l == link && EndpointExists(def, materialized, link.from) && link.from.SelectorRef? && link.from.candidate.Some?
    case ValueSourceTarget(l) => l == link && arrives && link.to.ValueSourceRef?
    case TapTarget(l) => l == link && arrives && link.to.WidgetTapRef?
    case SelectorOutputTarget(l) => l == link && arrives && link.to.SelectorRef? && link.to.candidate.None?
    case SelectorMultiDriver(s, c) => arrives && link.to == SelectorRef(s, Some(c)) && Targeted(before, link.to)
    case RerouteMultiDriver(r) => arrives && link.to == RerouteRef(r) && Targeted(before, link.to)
    case InputMultiDriver(ref) => arrives && link.to == PortEndpoint(ref) && Targeted(before, link.to)
    case ChainCycle(_) => false
  }

  ghost predicate LinkTellsAt(def: GraphDef, materialized: PortRef -> bool, links: seq<LinkData>, k: int, d: Diagnostic)
  {
    0 <= k < |links| && LinkTells(def, materialized, links[..k], links[k], d)
  }

  ghost predicate LinksTell(def: GraphDef, materialized: PortRef -> bool, links: seq<LinkData>, d: Diagnostic) {
    exists k :: LinkTellsAt(def, materialized, links, k, d)
  }

  /** What the `k`-th sink is reported for: it does not exist, or something drives it already. */
  ghost predicate SinkTells(def: GraphDef, materialized: PortRef -> bool, sinks: seq<PortRef>, k: int, d: Diagnostic)
    requires 0 <= k < |sinks|
  {
    match d
    case Dangling(e) => e == PortEndpoint(sinks[k]) && !EndpointExists(def, materialized, e)
    case InputMultiDriver(ref) =>
      && ref == sinks[k] && EndpointExists(def, materialized, PortEndpoint(ref))
      && (Targeted(def.links, PortEndpoint(ref)) || ref in sinks[..k])
    case _ => false
  }

  ghost predicate SourceTells(def: GraphDef, materialized: PortRef -> bool, nets: seq<NetData>, d: Diagnostic) {
    exists n :: n in nets && d == Dangling(PortEndpoint(n.source))
                && !EndpointExists(def, materialized, PortEndpoint(n.source))
  }

  ghost predicate SinksTell(def: GraphDef, materialized: PortRef -> bool, sinks: seq<PortRef>, d: Diagnostic) {
    exists k :: 0 <= k < |sinks| && SinkTells(def, materialized, sinks, k, d)
  }

  /** What a definition is reported for, other than its alias chains. */
  ghost predicate Tells(def: GraphDef, materialized: PortRef -> bool, d: Diagnostic) {
    || LinksTell(def, materialized, def.links, d)
    || SourceTells(def, materialized, def.nets, d)
    || SinksTell(def, materialized, SinksOf(def.nets), d)
  }

  /** Only aliases that lie on a cycle of their chain are reported. */
  ghost predicate OnCycles(def: GraphDef, diags: seq<Diagnostic>) {
    forall d :: d in diags ==> d.ChainCycle? && ReachesPlus(KeyNext(def), d.key, d.key)
  }

  // ---------------------------------------------------------------------
  // The three-colour walk

  datatype Colour = Visiting | Done

  /** The walk's view of the drivers, as the link pass left it. */
  ghost predicate DriversKnown(def: GraphDef, drivenReroutes: map<Id, LinkData>,
                               selectorDrivers: map<Id, seq<LinkData>>)
  {
    && (forall r :: Lookup(drivenReroutes, r) == if r in def.reroutes then DriverOf(def.links, RerouteRef(r)) else None)
    && (forall s, l :: l in GetList(selectorDrivers, s) <==> l in KeyDrivers(def, SelectorRef(s, None)))
  }

  ghost function Grey(state: map<LinkEndpoint, Colour>): set<LinkEndpoint> {
    set k | k in state && state[k] == Visiting
  }

  ghost function Black(state: map<LinkEndpoint, Colour>): set<LinkEndpoint> {
    set k | k in state && state[k] == Done
  }

  /** Everything the walk can meet. */
  ghost function Keys(def: GraphDef): set<LinkEndpoint> {
    (set r | r in def.reroutes :: RerouteRef(r))
    + (set s | s in def.selectors :: SelectorRef(s, None))
    + (set l | l in def.links && IsKey(l.from) :: l.from)
  }

  /** While no cycle was met, finished keys have finished successors of smaller rank. */
  ghost predicate Ranked(def: GraphDef, state: map<LinkEndpoint, Colour>, rank: map<LinkEndpoint, nat>, clock: nat) {
    forall k {:trigger k in Black(state)} :: k in Black(state) ==>
      k in rank && rank[k] < clock
      && forall y :: y in KeyNext(def)(k) ==> y in Black(state) && y in rank && rank[y] < rank[k]
  }

  ghost predicate HasCycle(def: GraphDef) {
    exists k :: ReachesPlus(KeyNext(def), k, k)
  }

  /** What holds between visits; `clean` says that no cycle was reported yet. */
  ghost predicate Sound(def: GraphDef, state: map<LinkEndpoint, Colour>, clean: bool, rank: map<LinkEndpoint, nat>,
                        clock: nat)
  {
    && state.Keys <= Keys(def)
    && (if clean then Ranked(def, state, rank, clock) else HasCycle(def))
  }

  /** Entered with colours `before`, the visit of `key` has followed the aliases in `done`. */
  ghost predicate Busy(def: GraphDef, before: map<LinkEndpoint, Colour>, key: LinkEndpoint,
                       state: map<LinkEndpoint, Colour>, clean: bool, done: set<LinkEndpoint>)
  {
    && key in Keys(def) && key !in before && before.Keys + {key} <= state.Keys
    && Grey(state) <= Grey(before) + {key}
    && (clean ==> Grey(state) == Grey(before) + {key} && Black(before) + done <= Black(state))
  }

  /** Entered with colours `before`, the visit of `key` returned with colours `state`. */
  ghost predicate Visited(def: GraphDef, before: map<LinkEndpoint, Colour>, key: LinkEndpoint,
                          state: map<LinkEndpoint, Colour>, clean: bool)
  {
    && before.Keys + {key} <= state.Keys && Grey(state) <= Grey(before)
    && (clean ==> Grey(state) == Grey(before) && Black(before) + {key} <= Black(state))
  }

  lemma Enter(def: GraphDef, before: map<LinkEndpoint, Colour>, clean: bool, rank: map<LinkEndpoint, nat>, clock: nat,
              key: LinkEndpoint)
    requires Sound(def, before, clean, rank, clock) && key in Keys(def) && key !in before
    ensures Sound(def, before[key := Visiting], clean, rank, clock)
    ensures Busy(def, before, key, before[key := Visiting], clean, {})
  {
    hide KeyNext;
    var state := before[key := Visiting];
    assert Black(state) == Black(before);
    assert Grey(state) == Grey(before) + {key};
  }

  /** After a nested visit of `next` returned. */
  lemma Followed(def: GraphDef, before: map<LinkEndpoint, Colour>, key: LinkEndpoint, state: map<LinkEndpoint, Colour>,
                 clean: bool, done: set<LinkEndpoint>, next: LinkEndpoint, state': map<LinkEndpoint, Colour>,
                 clean': bool)
    requires Busy(def, before, key, state, clean, done) && Visited(def, state, next, state', clean')
             && (clean' ==> clean)
    ensures Busy(def, before, key, state', clean', done + {next})
  {
    hide Black;
    hide Grey;
  }

  lemma Leave(def: GraphDef, before: map<LinkEndpoint, Colour>, key: LinkEndpoint, state: map<LinkEndpoint, Colour>,
              clean: bool, rank: map<LinkEndpoint, nat>, clock: nat, done: set<LinkEndpoint>)
    requires Sound(def, state, clean, rank, clock) && Busy(def, before, key, state, clean, done)
    requires KeyNext(def)(key) <= done
    ensures key in state
    ensures var after := if state[key] == Visiting then state[key := Done] else state;
            Sound(def, after, clean, rank[key := clock], clock + 1) && Visited(def, before, key, after, clean)
  {
    hide KeyNext;
    var after := if state[key] == Visiting then state[key := Done] else state;
    assert key !in Grey(before);
    assert Grey(after) == Grey(state) - {key};
    if clean {
      assert key in Grey(state);
      assert key !in Black(state);
      assert Black(after) == Black(state) + {key};
    }
  }

  /** Meeting a running key again is a cycle. */
  lemma Remeet(def: GraphDef, before: map<LinkEndpoint, Colour>, clean: bool, rank: map<LinkEndpoint, nat>, clock: nat,
               key: LinkEndpoint)
    requires Sound(def, before, clean, rank, clock) && key in before && ReachesPlus(KeyNext(def), key, key)
    ensures Sound(def, before[key := Done], false, rank, clock) && Visited(def, before, key, before[key := Done], false)
  {
  }

  lemma AlreadyDone(def: GraphDef, state: map<LinkEndpoint, Colour>, key: LinkEndpoint, clean: bool)
    requires key in state && state[key] == Done
    ensures Visited(def, state, key, state, clean)
  {
  }

  lemma GreyKey(state: map<LinkEndpoint, Colour>, key: LinkEndpoint)
    requires key in state && state[key] == Visiting
    ensures key in Grey(state)
  {
  }

  /** What a nested visit needs of the running ones. */
  lemma BeforeFollow(def: GraphDef, before: map<LinkEndpoint, Colour>, key: LinkEndpoint,
                     state: map<LinkEndpoint, Colour>, clean: bool, done: set<LinkEndpoint>, next: LinkEndpoint)
    requires Busy(def, before, key, state, clean, done) && next in KeyNext(def)(key) && state.Keys <= Keys(def)
    requires forall v :: v in Grey(before) ==> ReachesPlus(KeyNext(def), v, key)
    ensures next in Keys(def) && IsKey(next)
    ensures forall v :: v in Grey(state) ==> ReachesPlus(KeyNext(def), v, next)
    ensures |Keys(def) - state.Keys| < |Keys(def) - before.Keys|
  {
    NextIsKey(def, key, next);
    hide Keys;
    Edge(KeyNext(def), key, next);
    hide Reaches;
    hide ReachesPlus;
    forall v | v in Grey(state)
      ensures ReachesPlus(KeyNext(def), v, next)
    {
      if v != key {
        PlusTrans(KeyNext(def), v, key, next);
      }
    }
    Smaller(Keys(def) - state.Keys, Keys(def) - before.Keys, key);
  }

  lemma NextIsKey(def: GraphDef, key: LinkEndpoint, next: LinkEndpoint)
    requires next in KeyNext(def)(key)
    ensures next in Keys(def) && IsKey(next)
  {
    var l :| l in KeyDrivers(def, key) && IsKey(l.from) && l.from == next;
    assert l in def.links;
  }

  lemma Smaller<T>(a: set<T>, b: set<T>, x: T)
    requires a <= b - {x} && x in b
    ensures |a| < |b|
  {
    assert b == a + (b - a);
    assert x in b - a;
  }

  class CycleCheck {
    const def: GraphDef
    const drivenReroutes: map<Id, LinkData>
    const selectorDrivers: map<Id, seq<LinkData>>
    var state: map<LinkEndpoint, Colour>
    var diags: seq<Diagnostic>
    ghost var rank: map<LinkEndpoint, nat>
    ghost var clock: nat

    ghost predicate Valid()
      reads this
    {
      && DriversKnown(def, drivenReroutes, selectorDrivers) && Sound(def, state, diags == [], rank, clock)
      && OnCycles(def, diags)
    }

    constructor (def: GraphDef, drivenReroutes: map<Id, LinkData>, selectorDrivers: map<Id, seq<LinkData>>)
      requires DriversKnown(def, drivenReroutes, selectorDrivers)
      ensures Valid() && diags == [] && state == map[] && this.def == def
    {
      this.def, this.drivenReroutes, this.selectorDrivers := def, drivenReroutes, selectorDrivers;
      state, diags, rank, clock := map[], [], map[], 0;
      new;
      assert Black(state) == {};
    }

    /**
     * Visits one key that every running visit reaches. Without a cycle the key ends up
     * finished and the running visits are untouched.
     */
    method Visit(key: LinkEndpoint)
      requires Valid() && key in Keys(def) && IsKey(key)
      requires forall v :: v in Grey(state) ==> ReachesPlus(KeyNext(def), v, key)
      modifies this
      decreases |Keys(def) - state.Keys|, 2
      ensures Valid() && (diags == [] ==> old(diags) == [])
      ensures Visited(def, old(state), key, state, diags == [])
    {
      hide *;
      if key in state && state[key] == Done {
        AlreadyDone(def, state, key, diags == []);
        return;
      }
      if key in state && state[key] == Visiting {
        GreyKey(state, key);
        ReportCycle(key);
        return;
      }
      ghost var before := state;
      BeginVisit(key);
      ghost var done := FollowDrivers(before, key);
      EndVisit(before, key, done);
    }

    /** A running key was met again: report it once and stop reporting through it. */
    method ReportCycle(key: LinkEndpoint)
      requires Valid() && key in state && ReachesPlus(KeyNext(def), key, key)
      modifies `diags, `state
      ensures diags == old(diags) + [ChainCycle(key)] && state == old(state)[key := Done]
      ensures Valid() && Visited(def, old(state), key, state, false)
    {
      Remeet(def, state, diags == [], rank, clock, key);
      hide Sound;
      diags := diags + [ChainCycle(key)];
      state := state[key := Done];
    }

    method BeginVisit(key: LinkEndpoint)
      requires Valid() && key in Keys(def) && key !in state
      modifies `state
      ensures Valid() && state == old(state)[key := Visiting] && Busy(def, old(state), key, state, diags == [], {})
    {
      Enter(def, state, diags == [], rank, clock, key);
      hide Sound;
      hide Busy;
      state := state[key := Visiting];
    }

    method EndVisit(ghost before: map<LinkEndpoint, Colour>, key: LinkEndpoint, ghost done: set<LinkEndpoint>)
      requires Valid() && Busy(def, before, key, state, diags == [], done) && KeyNext(def)(key) <= done
      modifies `state, `rank, `clock
      ensures Valid() && Visited(def, before, key, state, diags == [])
    {
      Leave(def, before, key, state, diags == [], rank, clock, done);
      hide Sound;
      hide Busy;
      hide Visited;
      rank, clock := rank[key := clock], clock + 1;
      if state[key] == Visiting {
        state := state[key := Done];
      }
    }

    /** The walk goes on through every driver of the alias. */
    method FollowDrivers(ghost before: map<LinkEndpoint, Colour>, key: LinkEndpoint)
      returns (ghost done: set<LinkEndpoint>)
      requires Valid() && IsKey(key) && Busy(def, before, key, state, diags == [], {})
      requires forall v :: v in Grey(before) ==> ReachesPlus(KeyNext(def), v, key)
      modifies this
      decreases |Keys(def) - before.Keys|, 1
      ensures Valid() && (diags == [] ==> old(diags) == [])
      ensures Busy(def, before, key, state, diags == [], done) && KeyNext(def)(key) <= done
    {
      hide Reaches;
      hide ReachesPlus;
      hide Sound;
      hide Keys;
      hide Busy;
      done := {};
      match key {
        case RerouteRef(r) =>
          if r in drivenReroutes {
            assert Lookup(drivenReroutes, r) == DriverOf(def.links, key);
            done := Follow(before, key, {}, drivenReroutes[r]);
          } else {
            assert Lookup(drivenReroutes, r) == None;
          }
        case SelectorRef(s, _) =>
          var drivers := GetList(selectorDrivers, s);
          for i := 0 to |drivers|
            invariant Valid() && (diags == [] ==> old(diags) == [])
            invariant Busy(def, before, key, state, diags == [], done)
            invariant forall j :: 0 <= j < i && IsKey(drivers[j].from) ==> drivers[j].from in done
          {
            assert drivers[i] in drivers;
            done := Follow(before, key, done, drivers[i]);
          }
          assert forall l :: l in KeyDrivers(def, key) <==> l in drivers;
        case WidgetTapRef(node, tap) =>
          var link := ScanDriver(def.links, PortEndpoint(TappedInput(node, tap)));
          if link.Some? {
            done := Follow(before, key, {}, link.value);
          }
      }
    }

    /** One driver: only alias sources are followed. */
    method Follow(ghost before: map<LinkEndpoint, Colour>, key: LinkEndpoint, ghost done: set<LinkEndpoint>,
                  driver: LinkData)
      returns (ghost done': set<LinkEndpoint>)
      requires Valid() && Busy(def, before, key, state, diags == [], done) && driver in KeyDrivers(def, key)
      requires forall v :: v in Grey(before) ==> ReachesPlus(KeyNext(def), v, key)
      modifies this
      decreases |Keys(def) - before.Keys|, 0
      ensures Valid() && (diags == [] ==> old(diags) == [])
      ensures done' == if IsKey(driver.from) then done + {driver.from} else done
      ensures Busy(def, before, key, state, diags == [], done')
    {
      hide Reaches;
      hide ReachesPlus;
      hide Busy;
      hide Visited;
      done' := done;
      if IsKey(driver.from) {
        assert driver.from in KeyNext(def)(key);
        BeforeFollow(def, before, key, state, diags == [], done, driver.from);
        ghost var mid, clean := state, diags == [];
        hide Sound;
        hide Keys;
        hide KeyNext;
        hide KeyDrivers;
        Visit(driver.from);
        Followed(def, before, key, mid, clean, done, driver.from, state, diags == []);
        done' := done + {driver.from};
      }
    }

    /** Between roots nothing is running, and without a cycle every root so far is finished. */
    ghost predicate Between(roots: set<LinkEndpoint>)
      reads this
    {
      Valid() && Grey(state) == {} && (diags == [] ==> roots <= Black(state))
    }

    /** The whole walk: every reroute, every selector and every tapped source is a root. */
    method Run()
      requires Valid() && diags == [] && state == map[]
      modifies this
      ensures diags == [] <==> Acyclic(KeyNext(def))
      ensures OnCycles(def, diags)
    {
      assert Between({});
      hide *;
      ghost var r := VisitReroutes({});
      ghost var s := VisitSelectors(r);
      ghost var t := VisitTaps(s);
      Conclude(t);
      OnlyCycles(t);
    }

    lemma OnlyCycles(roots: set<LinkEndpoint>)
      requires Between(roots)
      ensures OnCycles(def, diags)
    {
      hide Sound;
      hide OnCycles;
    }

    method VisitReroutes(ghost before: set<LinkEndpoint>) returns (ghost roots: set<LinkEndpoint>)
      requires Between(before)
      modifies this
      ensures Between(roots) && before <= roots && forall r :: r in def.reroutes ==> RerouteRef(r) in roots
    {
      hide Between;
      roots := before;
      var rest := def.reroutes;
      while rest != {}
        invariant rest <= def.reroutes && Between(roots) && before <= roots
        invariant forall r :: r in def.reroutes && r !in rest ==> RerouteRef(r) in roots
        decreases |rest|
      {
        var r :| r in rest;
        rest := rest - {r};
        VisitRoot(RerouteRef(r), roots);
        roots := roots + {RerouteRef(r)};
      }
    }

    method VisitSelectors(ghost before: set<LinkEndpoint>) returns (ghost roots: set<LinkEndpoint>)
      requires Between(before)
      modifies this
      ensures Between(roots) && before <= roots && forall s :: s in def.selectors ==> SelectorRef(s, None) in roots
    {
      hide Between;
      roots := before;
      var rest := def.selectors.Keys;
      while rest != {}
        invariant rest <= def.selectors.Keys && Between(roots) && before <= roots
        invariant forall s :: s in def.selectors && s !in rest ==> SelectorRef(s, None) in roots
        decreases |rest|
      {
        var s :| s in rest;
        rest := rest - {s};
        VisitRoot(SelectorRef(s, None), roots);
        roots := roots + {SelectorRef(s, None)};
      }
    }

    method VisitTaps(ghost before: set<LinkEndpoint>) returns (ghost roots: set<LinkEndpoint>)
      requires Between(before)
      modifies this
      ensures Between(roots) && before <= roots
      ensures forall j :: 0 <= j < |def.links| && def.links[j].from.WidgetTapRef? ==> def.links[j].from in roots
    {
      hide Between;
      roots := before;
      for i := 0 to |def.links|
        invariant Between(roots) && before <= roots
        invariant forall j :: 0 <= j < i && def.links[j].from.WidgetTapRef? ==> def.links[j].from in roots
      {
        if def.links[i].from.WidgetTapRef? {
          VisitRoot(def.links[i].from, roots);
          roots := roots + {def.links[i].from};
        }
      }
    }

    lemma Conclude(roots: set<LinkEndpoint>)
      requires Between(roots)
      requires forall r :: r in def.reroutes ==> RerouteRef(r) in roots
      requires forall s :: s in def.selectors ==> SelectorRef(s, None) in roots
      requires forall j :: 0 <= j < |def.links| && def.links[j].from.WidgetTapRef? ==> def.links[j].from in roots
      ensures diags == [] <==> Acyclic(KeyNext(def))
    {
      hide Sound;
      hide Acyclic;
      hide KeyNext;
      Verdict(def, state, diags == [], rank, clock);
    }

    method VisitRoot(key: LinkEndpoint, ghost roots: set<LinkEndpoint>)
      requires Between(roots) && IsKeyRoot(def, key)
      modifies this
      ensures Between(roots + {key})
    {
      hide Sound;
      hide Grey;
      hide Black;
      Visit(key);
    }
  }

  ghost predicate IsKeyRoot(def: GraphDef, key: LinkEndpoint) {
    match key
    case RerouteRef(r) => r in def.reroutes
    case SelectorRef(s, c) => c.None? && s in def.selectors
    case WidgetTapRef(_, _) => exists j :: 0 <= j < |def.links| && def.links[j].from == key
    case _ => false
  }

  /** With every alias finished, the walk's verdict is exact. */
  lemma Verdict(def: GraphDef, state: map<LinkEndpoint, Colour>, clean: bool, rank: map<LinkEndpoint, nat>, clock: nat)
    requires Sound(def, state, clean, rank, clock)
    requires clean ==> forall r :: r in def.reroutes ==> RerouteRef(r) in Black(state)
    requires clean ==> forall s :: s in def.selectors ==> SelectorRef(s, None) in Black(state)
    requires clean ==> forall j ::
             0 <= j < |def.links| && def.links[j].from.WidgetTapRef? ==> def.links[j].from in Black(state)
    ensures clean <==> Acyclic(KeyNext(def))
  {
    var next := KeyNext(def);
    if clean {
      var rankOf := (k: LinkEndpoint) => if k in rank then rank[k] else 0;
      forall k
        ensures !ReachesPlus(next, k, k)
      {
        if ReachesPlus(next, k, k) {
          CycleMembersAreRoots(def, k);
          assert k in Black(state);
          hide Reaches;
          hide ReachesPlus;
          hide KeyNext;
          forall x, y | x in Black(state) && y in next(x)
            ensures y in Black(state) && rankOf(y) < rankOf(x)
          {
          }
          RankAcyclic(next, rankOf, Black(state), k);
        }
      }
    }
  }

  lemma CycleMembersAreRoots(def: GraphDef, k: LinkEndpoint)
    requires ReachesPlus(KeyNext(def), k, k)
    ensures IsKeyRoot(def, k)
  {
    var next := KeyNext(def);
    var c :| c in next(k) && Reaches(next, c, k);
    if k.WidgetTapRef? {
      TapIsSourced(def, c, k);
    }
  }

  lemma TapIsSourced(def: GraphDef, c: LinkEndpoint, k: LinkEndpoint)
    requires k.WidgetTapRef? && c in KeyNext(def)(k) && Reaches(KeyNext(def), c, k)
    ensures exists j :: 0 <= j < |def.links| && def.links[j].from == k
  {
    var p :| Walk(KeyNext(def), c, p, k);
    if p == [] {
      SourceIndex(def, k, k);
    } else {
      LastEdge(def, c, p, k);
    }
  }

  lemma SourceIndex(def: GraphDef, a: LinkEndpoint, k: LinkEndpoint)
    requires k in KeyNext(def)(a)
    ensures exists j :: 0 <= j < |def.links| && def.links[j].from == k
  {
    var l :| l in KeyDrivers(def, a) && IsKey(l.from) && l.from == k;
    assert l in def.links;
  }

  lemma {:induction false} LastEdge(def: GraphDef, c: LinkEndpoint, p: seq<LinkEndpoint>, k: LinkEndpoint)
    requires p != [] && Walk(KeyNext(def), c, p, k)
    ensures exists j :: 0 <= j < |def.links| && def.links[j].from == k
    decreases |p|
  {
    if |p| == 1 {
      SourceIndex(def, c, k);
    } else {
      LastEdge(def, p[0], p[1..], k);
    }
  }

  // ---------------------------------------------------------------------
  // The link and net passes

  /** One endpoint check: a report exactly when the endpoint does not exist. */
  method CheckEndpoint(def: GraphDef, materialized: PortRef -> bool, e: LinkEndpoint)
    returns (ok: bool, report: seq<Diagnostic>)
    ensures ok <==> EndpointExists(def, materialized, e)
    ensures report == if ok then [] else [Dangling(e)]
  {
    match e {
      case RerouteRef(r) => ok := r in def.reroutes;
      case ValueSourceRef(v) => ok := v in def.valueSources;
      case SelectorRef(s, c) =>
        ok := s in def.selectors;
        if ok && c.Some? {
          ok := c.value in def.selectors[s];
        }
      case WidgetTapRef(node, _) => ok := node in def.nodes;
      case PortEndpoint(ref) => ok := ref.node in def.nodes && materialized(ref);
    }
    report := if ok then [] else [Dangling(e)];
  }

  /** The driver maps after the links seen so far: the first driver of every existing target. */
  datatype Drivers = Drivers(
    inputs: set<PortRef>,
    reroutes: map<Id, LinkData>,
    candidates: map<(Id, Id), LinkData>,
    selectors: map<Id, seq<LinkData>>)

  ghost predicate DriversOf(def: GraphDef, materialized: PortRef -> bool, links: seq<LinkData>, d: Drivers) {
    && (forall p :: p in d.inputs <==>
          EndpointExists(def, materialized, PortEndpoint(p)) && DriverOf(links, PortEndpoint(p)).Some?)
    && (forall r :: Lookup(d.reroutes, r) == if r in def.reroutes then DriverOf(links, RerouteRef(r)) else None)
    && (forall s, c :: Lookup(d.candidates, (s, c)) ==
          if c in Candidates(def, s) then DriverOf(links, SelectorRef(s, Some(c))) else None)
    && (forall s, l :: l in GetList(d.selectors, s) <==> Feeds(def, links, s, l))
  }

  /** `l` drives some declared candidate of `s`. */
  ghost predicate Feeds(def: GraphDef, links: seq<LinkData>, s: Id, l: LinkData) {
    exists c :: c in Candidates(def, s) && Drives(links, SelectorRef(s, Some(c)), l)
  }

  ghost predicate Drives(links: seq<LinkData>, to: LinkEndpoint, l: LinkData) {
    DriverOf(links, to) == Some(l)
  }

  lemma SameFeeds(def: GraphDef, links: seq<LinkData>, more: seq<LinkData>, s: Id)
    requires forall c ::
             c in Candidates(def, s) ==>
               DriverOf(links, SelectorRef(s, Some(c))) == DriverOf(more, SelectorRef(s, Some(c)))
    ensures forall l :: Feeds(def, links, s, l) <==> Feeds(def, more, s, l)
  {
    hide DriverOf;
    forall l
      ensures Feeds(def, links, s, l) <==> Feeds(def, more, s, l)
    {
      if c :| c in Candidates(def, s) && Drives(links, SelectorRef(s, Some(c)), l) {
        assert Drives(more, SelectorRef(s, Some(c)), l);
      }
      if c :| c in Candidates(def, s) && Drives(more, SelectorRef(s, Some(c)), l) {
        assert Drives(links, SelectorRef(s, Some(c)), l);
      }
    }
  }

  lemma AppendDriver(links: seq<LinkData>, link: LinkData)
    ensures forall e :: DriverOf(links + [link], e) ==
                        if DriverOf(links, e).Some? || link.to != e then DriverOf(links, e) else Some(link)
  {
    assert (links + [link])[..|links|] == links;
  }

  /** A link whose target does not exist, or is illegal, or is already driven, leaves the maps alone. */
  lemma SkippedLink(def: GraphDef, materialized: PortRef -> bool, links: seq<LinkData>, link: LinkData, d: Drivers)
    requires DriversOf(def, materialized, links, d)
    requires !EndpointExists(def, materialized, link.to) || !LegalTarget(link.to) || DriverOf(links, link.to).Some?
    ensures DriversOf(def, materialized, links + [link], d)
  {
    AppendDriver(links, link);
    hide DriverOf;
    forall s, l
      ensures Feeds(def, links + [link], s, l) <==> Feeds(def, links, s, l)
    {
      SameFeeds(def, links, links + [link], s);
    }
    hide Feeds;
  }

  /** The first driver of a candidate joins its selector's drivers. */
  lemma AddedCandidate(def: GraphDef, materialized: PortRef -> bool, links: seq<LinkData>, link: LinkData, d: Drivers)
    requires DriversOf(def, materialized, links, d) && EndpointExists(def, materialized, link.to)
    requires link.to.SelectorRef? && link.to.candidate.Some? && DriverOf(links, link.to).None?
    ensures var s, c := link.to.selector, link.to.candidate.value;
            DriversOf(def, materialized, links + [link],
                      d.(candidates := d.candidates[(s, c) := link],
                        selectors := d.selectors[s := GetList(d.selectors, s) + [link]]))
  {
    AppendDriver(links, link);
    hide DriverOf;
    var s, c := link.to.selector, link.to.candidate.value;
    var selectors := d.selectors[s := GetList(d.selectors, s) + [link]];
    forall s', l
      ensures l in GetList(selectors, s') <==> Feeds(def, links + [link], s', l)
    {
      assert l in GetList(selectors, s') <==> l in GetList(d.selectors, s') || (s' == s && l == link);
      if Feeds(def, links, s', l) {
        var k :| k in Candidates(def, s') && Drives(links, SelectorRef(s', Some(k)), l);
        assert Drives(links + [link], SelectorRef(s', Some(k)), l);
      }
      if s' == s && l == link {
        assert Drives(links + [link], SelectorRef(s, Some(c)), link);
      }
      if Feeds(def, links + [link], s', l) {
        var k :| k in Candidates(def, s') && Drives(links + [link], SelectorRef(s', Some(k)), l);
        assert Drives(links, SelectorRef(s', Some(k)), l) || (s' == s && l == link);
      }
    }
    hide Feeds;
  }

  lemma AddedOther(def: GraphDef, materialized: PortRef -> bool, links: seq<LinkData>, link: LinkData, d: Drivers,
                   d': Drivers)
    requires DriversOf(def, materialized, links, d) && EndpointExists(def, materialized, link.to)
             && DriverOf(links, link.to).None?
    requires (link.to.RerouteRef? && d' == d.(reroutes := d.reroutes[link.to.reroute := link]))
             || (link.to.PortEndpoint? && d' == d.(inputs := d.inputs + {link.to.ref}))
    ensures DriversOf(def, materialized, links + [link], d')
  {
    AppendDriver(links, link);
    hide DriverOf;
    forall s, l
      ensures Feeds(def, links + [link], s, l) <==> Feeds(def, links, s, l)
    {
      SameFeeds(def, links, links + [link], s);
    }
    hide Feeds;
  }

  /** The maps know exactly the targets met so far. */
  lemma KnownTarget(def: GraphDef, materialized: PortRef -> bool, links: seq<LinkData>, d: Drivers, e: LinkEndpoint)
    requires DriversOf(def, materialized, links, d) && EndpointExists(def, materialized, e)
    ensures Targeted(links, e) <==> DriverOf(links, e).Some?
    ensures match e
            case RerouteRef(r) => r in d.reroutes <==> Targeted(links, e)
            case SelectorRef(s, Some(c)) => (s, c) in d.candidates <==> Targeted(links, e)
            case PortEndpoint(p) => p in d.inputs <==> Targeted(links, e)
            case _ => true
  {
    FirstDriver(links, e);
    hide DriverOf;
    hide Targeted;
    match e
    case RerouteRef(r) => assert Lookup(d.reroutes, r) == DriverOf(links, e);
    case SelectorRef(s, Some(c)) => assert Lookup(d.candidates, (s, c)) == DriverOf(links, e);
    case _ =>
  }

  /** The target of a link that exists: illegal kinds and second drivers are reported, first drivers recorded. */
  method ClaimTarget(def: GraphDef, materialized: PortRef -> bool, ghost links: seq<LinkData>, link: LinkData,
                     d: Drivers)
    returns (d': Drivers, report: seq<Diagnostic>)
    requires DriversOf(def, materialized, links, d) && EndpointExists(def, materialized, link.to)
    ensures DriversOf(def, materialized, links + [link], d')
    ensures forall t :: t in report <==> TargetTells(links, link, t)
  {
    hide DriversOf;
    hide DriverOf;
    hide Targeted;
    hide EndpointExists;
    d', report := d, [];
    KnownTarget(def, materialized, links, d, link.to);
    match link.to {
      case ValueSourceRef(_) => report := [ValueSourceTarget(link)];
      case WidgetTapRef(_, _) => report := [TapTarget(link)];
      case SelectorRef(_, None) => report := [SelectorOutputTarget(link)];
      case SelectorRef(s, Some(c)) =>
        if (s, c) in d.candidates {
          report := [SelectorMultiDriver(s, c)];
        } else {
          AddedCandidate(def, materialized, links, link, d);
          d' := d.(candidates := d.candidates[(s, c) := link],
            selectors := d.selectors[s := GetList(d.selectors, s) + [link]]);
        }
      case RerouteRef(r) =>
        if r in d.reroutes {
          report := [RerouteMultiDriver(r)];
        } else {
          d' := d.(reroutes := d.reroutes[r := link]);
          AddedOther(def, materialized, links, link, d, d');
        }
      case PortEndpoint(p) =>
        if p in d.inputs {
          report := [InputMultiDriver(p)];
        } else {
          d' := d.(inputs := d.inputs + {p});
          AddedOther(def, materialized, links, link, d, d');
        }
    }
    if report != [] {
      SkippedLink(def, materialized, links, link, d);
    }
  }

  lemma FirstDriver(links: seq<LinkData>, e: LinkEndpoint)
    ensures Targeted(links, e) <==> DriverOf(links, e).Some?
  {
  }

  /** What a link is reported for on account of a target that exists. */
  ghost predicate TargetTells(before: seq<LinkData>, link: LinkData, d: Diagnostic) {
    match d
    case ValueSourceTarget(l) => l == link && link.to.ValueSourceRef?
    case TapTarget(l) => l == link && link.to.WidgetTapRef?
    case SelectorOutputTarget(l) => l == link && link.to.SelectorRef? && link.to.candidate.None?
    case SelectorMultiDriver(s, c) => link.to == SelectorRef(s, Some(c)) && Targeted(before, link.to)
    case RerouteMultiDriver(r) => link.to == RerouteRef(r) && Targeted(before, link.to)
    case InputMultiDriver(ref) => link.to == PortEndpoint(ref) && Targeted(before, link.to)
    case _ => false
  }

  /** The body of the link pass. */
  method CheckLink(def: GraphDef, materialized: PortRef -> bool, ghost links: seq<LinkData>, link: LinkData, d: Drivers)
    returns (d': Drivers, report: seq<Diagnostic>)
    requires DriversOf(def, materialized, links, d)
    ensures DriversOf(def, materialized, links + [link], d')
    ensures forall t :: t in report <==> LinkTells(def, materialized, links, link, t)
  {
    hide DriversOf;
    hide DriverOf;
    hide Targeted;
    var fromOk, r0 := CheckEndpoint(def, materialized, link.from);
    if fromOk && IsCandidate(link.from) {
      r0 := r0 + [SelectorCandidateSource(link)];
    }
    var toOk, r1 := CheckEndpoint(def, materialized, link.to);
    d' := d;
    if toOk {
      var r2;
      d', r2 := ClaimTarget(def, materialized, links, link, d);
      r1 := r1 + r2;
    } else {
      SkippedLink(def, materialized, links, link, d);
    }
    report := r0 + r1;
  }

  /** The link pass reports nothing exactly when the links are well formed with one driver per target. */
  method CheckLinks(def: GraphDef, materialized: PortRef -> bool) returns (d: Drivers, report: seq<Diagnostic>)
    ensures DriversOf(def, materialized, def.links, d)
    ensures forall t :: t in report <==> LinksTell(def, materialized, def.links, t)
  {
    d, report := Drivers({}, map[], map[], map[]), [];
    assert DriversOf(def, materialized, [], d) by { assert forall e :: DriverOf([], e) == None; }
    hide DriversOf;
    for i := 0 to |def.links|
      invariant DriversOf(def, materialized, def.links[..i], d)
      invariant forall t :: t in report <==> LinksTell(def, materialized, def.links[..i], t)
    {
      hide LinkTells;
      var more;
      d, more := CheckLink(def, materialized, def.links[..i], def.links[i], d);
      report := report + more;
      LinksTellMore(def, materialized, def.links, i);
    }
    assert def.links[..|def.links|] == def.links;
  }

  lemma LinksTellLast(def: GraphDef, materialized: PortRef -> bool, front: seq<LinkData>, last: LinkData, d: Diagnostic)
    ensures LinksTell(def, materialized, front + [last], d) <==>
            LinksTell(def, materialized, front, d) || LinkTells(def, materialized, front, last, d)
  {
    hide LinkTells;
    var links := front + [last];
    assert forall k :: 0 <= k <= |front| ==> links[..k] == front[..k];
    assert front[..|front|] == front;
    forall k | 0 <= k < |front|
      ensures LinkTellsAt(def, materialized, links, k, d) <==> LinkTellsAt(def, materialized, front, k, d)
    {
    }
    assert LinkTellsAt(def, materialized, links, |front|, d) <==> LinkTells(def, materialized, front, last, d);
    if LinksTell(def, materialized, links, d) {
      var k :| LinkTellsAt(def, materialized, links, k, d);
      assert k < |front| ==> LinkTellsAt(def, materialized, front, k, d);
    }
    if LinksTell(def, materialized, front, d) {
      var k :| LinkTellsAt(def, materialized, front, k, d);
      assert LinkTellsAt(def, materialized, links, k, d);
    }
  }

  lemma LinksTellMore(def: GraphDef, materialized: PortRef -> bool, links: seq<LinkData>, i: nat)
    requires i < |links|
    ensures forall d :: LinksTell(def, materialized, links[..i + 1], d) <==>
                        LinksTell(def, materialized, links[..i], d)
                          || LinkTells(def, materialized, links[..i], links[i], d)
    ensures links[..i + 1] == links[..i] + [links[i]]
  {
    hide LinkTells;
    hide LinksTell;
    assert links[..i + 1] == links[..i] + [links[i]];
    forall d
      ensures LinksTell(def, materialized, links[..i + 1], d) <==>
              LinksTell(def, materialized, links[..i], d) || LinkTells(def, materialized, links[..i], links[i], d)
    {
      LinksTellLast(def, materialized, links[..i], links[i], d);
    }
  }

  ghost predicate LinksQuiet(def: GraphDef, materialized: PortRef -> bool, links: seq<LinkData>) {
    forall d :: !LinksTell(def, materialized, links, d)
  }

  ghost predicate LinkQuiet(def: GraphDef, materialized: PortRef -> bool, before: seq<LinkData>, link: LinkData) {
    forall d :: !LinkTells(def, materialized, before, link, d)
  }

  /** A link is reported for nothing exactly when it is well formed and the first to drive its target. */
  lemma LinkSilent(def: GraphDef, materialized: PortRef -> bool, before: seq<LinkData>, link: LinkData)
    ensures LinkQuiet(def, materialized, before, link) <==>
              LinkOk(def, materialized, link) && DriverOf(before, link.to).None?
  {
    FirstDriver(before, link.to);
    hide Targeted;
    hide DriverOf;
    if !EndpointExists(def, materialized, link.from) {
      assert LinkTells(def, materialized, before, link, Dangling(link.from));
    } else if IsCandidate(link.from) {
      assert LinkTells(def, materialized, before, link, SelectorCandidateSource(link));
    } else if !EndpointExists(def, materialized, link.to) {
      assert LinkTells(def, materialized, before, link, Dangling(link.to));
    } else {
      match link.to
      case ValueSourceRef(_) => assert LinkTells(def, materialized, before, link, ValueSourceTarget(link));
      case WidgetTapRef(_, _) => assert LinkTells(def, materialized, before, link, TapTarget(link));
      case SelectorRef(_, None) => assert LinkTells(def, materialized, before, link, SelectorOutputTarget(link));
      case SelectorRef(s, Some(c)) =>
        assert Targeted(before, link.to) ==> LinkTells(def, materialized, before, link, SelectorMultiDriver(s, c));
      case RerouteRef(r) =>
        assert Targeted(before, link.to) ==> LinkTells(def, materialized, before, link, RerouteMultiDriver(r));
      case PortEndpoint(p) =>
        assert Targeted(before, link.to) ==> LinkTells(def, materialized, before, link, InputMultiDriver(p));
    }
  }

  /** The links are reported for nothing exactly when they are well formed with one driver per target. */
  lemma {:induction false} LinksSilent(def: GraphDef, materialized: PortRef -> bool, links: seq<LinkData>)
    ensures LinksQuiet(def, materialized, links) <==> LinksOk(def, materialized, links)
  {
    if links != [] {
      var front, last := links[..|links| - 1], links[|links| - 1];
      assert links == front + [last];
      hide *;
      LinksSilent(def, materialized, front);
      QuietLast(def, materialized, front, last);
      LinkSilent(def, materialized, front, last);
      LinksStep(def, materialized, front, last);
    }
  }

  lemma QuietLast(def: GraphDef, materialized: PortRef -> bool, front: seq<LinkData>, last: LinkData)
    ensures LinksQuiet(def, materialized, front + [last]) <==>
            LinksQuiet(def, materialized, front) && LinkQuiet(def, materialized, front, last)
  {
    hide LinksTell;
    hide LinkTells;
    forall d
      ensures LinksTell(def, materialized, front + [last], d) <==>
              LinksTell(def, materialized, front, d) || LinkTells(def, materialized, front, last, d)
    {
      LinksTellLast(def, materialized, front, last, d);
    }
  }

  lemma LinksStep(def: GraphDef, materialized: PortRef -> bool, links: seq<LinkData>, link: LinkData)
    ensures LinksOk(def, materialized, links + [link]) <==>
            LinksOk(def, materialized, links) && LinkOk(def, materialized, link) && DriverOf(links, link.to).None?
  {
    hide LinkOk;
    var all := links + [link];
    if LinksOk(def, materialized, all) {
      assert forall l :: l in links ==> l in all;
      assert forall i :: 0 <= i < |links| ==> links[i] == all[i];
      assert all[|links|] == link;
    }
  }

  /** Nothing is told before the first net. */
  lemma NetsStart(def: GraphDef, materialized: PortRef -> bool, inputs: set<PortRef>)
    requires forall p :: p in inputs <==>
               EndpointExists(def, materialized, PortEndpoint(p)) && Targeted(def.links, PortEndpoint(p))
    ensures SinksOf(def.nets[..0]) == [] && Claims(def, materialized, [], inputs)
    ensures forall t :: !SourceTells(def, materialized, def.nets[..0], t) && !SinksTell(def, materialized, [], t)
  {
    hide Targeted;
    hide EndpointExists;
  }

  lemma SinksOfMore(nets: seq<NetData>, net: NetData)
    ensures SinksOf(nets + [net]) == SinksOf(nets) + net.sinks
  {
    assert (nets + [net])[..|nets|] == nets;
  }

  /** The net pass: endpoints exist and every sink is claimed once. */
  method CheckNets(def: GraphDef, materialized: PortRef -> bool, inputs: set<PortRef>) returns (report: seq<Diagnostic>)
    requires forall p :: p in inputs <==>
               EndpointExists(def, materialized, PortEndpoint(p)) && Targeted(def.links, PortEndpoint(p))
    ensures forall t :: t in report <==>
              SourceTells(def, materialized, def.nets, t) || SinksTell(def, materialized, SinksOf(def.nets), t)
  {
    hide *;
    report := [];
    var claimed := inputs;
    NetsStart(def, materialized, inputs);
    for i := 0 to |def.nets|
      invariant Claims(def, materialized, SinksOf(def.nets[..i]), claimed)
      invariant forall t :: t in report <==>
                  SourceTells(def, materialized, def.nets[..i], t)
                  || SinksTell(def, materialized, SinksOf(def.nets[..i]), t)
    {
      var net := def.nets[i];
      var ok, dangling := CheckEndpoint(def, materialized, PortEndpoint(net.source));
      assert def.nets[..i + 1] == def.nets[..i] + [net];
      SourceMore(def, materialized, def.nets[..i], net);
      SinksOfMore(def.nets[..i], net);
      var more;
      claimed, more := ClaimSinks(def, materialized, SinksOf(def.nets[..i]), claimed, net.sinks);
      report := report + dangling + more;
    }
    assert def.nets[..|def.nets|] == def.nets;
  }

  /** The inputs driven by links and by the sinks so far. */
  ghost predicate Claims(def: GraphDef, materialized: PortRef -> bool, sinks: seq<PortRef>, claimed: set<PortRef>) {
    forall p :: p in claimed <==>
      EndpointExists(def, materialized, PortEndpoint(p)) && (Targeted(def.links, PortEndpoint(p)) || p in sinks)
  }

  /** One sink of a net. */
  method ClaimSink(def: GraphDef, materialized: PortRef -> bool, ghost sinks: seq<PortRef>, claimed: set<PortRef>,
                   p: PortRef)
    returns (claimed': set<PortRef>, report: seq<Diagnostic>)
    requires Claims(def, materialized, sinks, claimed)
    ensures Claims(def, materialized, sinks + [p], claimed')
    ensures forall t ::
            SinksTell(def, materialized, sinks + [p], t) <==> SinksTell(def, materialized, sinks, t) || t in report
  {
    var ok;
    ok, report := CheckEndpoint(def, materialized, PortEndpoint(p));
    claimed' := claimed;
    if ok {
      if p in claimed {
        report := [InputMultiDriver(p)];
      }
      claimed' := claimed + {p};
    }
    hide Targeted;
    SinksMore(def, materialized, sinks, p);
    hide SinksTell;
  }

  /** The sinks of one net, one after another. */
  method ClaimSinks(def: GraphDef, materialized: PortRef -> bool, ghost before: seq<PortRef>, claimed0: set<PortRef>,
                    sinks: seq<PortRef>)
    returns (claimed: set<PortRef>, report: seq<Diagnostic>)
    requires Claims(def, materialized, before, claimed0)
    ensures Claims(def, materialized, before + sinks, claimed)
    ensures forall t :: SinksTell(def, materialized, before + sinks, t) <==>
                        SinksTell(def, materialized, before, t) || t in report
  {
    hide *;
    claimed, report := claimed0, [];
    assert before + sinks[..0] == before;
    for j := 0 to |sinks|
      invariant Claims(def, materialized, before + sinks[..j], claimed)
      invariant forall t :: SinksTell(def, materialized, before + sinks[..j], t) <==>
                            SinksTell(def, materialized, before, t) || t in report
    {
      assert before + sinks[..j + 1] == (before + sinks[..j]) + [sinks[j]];
      var more;
      claimed, more := ClaimSink(def, materialized, before + sinks[..j], claimed, sinks[j]);
      report := report + more;
    }
    assert sinks[..|sinks|] == sinks;
  }

  lemma SinksMore(def: GraphDef, materialized: PortRef -> bool, sinks: seq<PortRef>, p: PortRef)
    ensures forall t :: SinksTell(def, materialized, sinks + [p], t) <==>
                        SinksTell(def, materialized, sinks, t) || SinkTells(def, materialized, sinks + [p], |sinks|, t)
    ensures (sinks + [p])[|sinks|] == p && (sinks + [p])[..|sinks|] == sinks
  {
    hide Targeted;
    var all := sinks + [p];
    forall t
      ensures SinksTell(def, materialized, all, t) <==>
              SinksTell(def, materialized, sinks, t) || SinkTells(def, materialized, all, |sinks|, t)
    {
      forall k | 0 <= k < |sinks|
        ensures SinkTells(def, materialized, all, k, t) <==> SinkTells(def, materialized, sinks, k, t)
      {
        assert all[..k] == sinks[..k];
      }
      hide SinkTells;
    }
  }

  lemma SourceMore(def: GraphDef, materialized: PortRef -> bool, nets: seq<NetData>, net: NetData)
    ensures forall t :: SourceTells(def, materialized, nets + [net], t) <==>
              SourceTells(def, materialized, nets, t)
              || (t == Dangling(PortEndpoint(net.source))
                 && !EndpointExists(def, materialized, PortEndpoint(net.source)))
  {
  }

  ghost predicate SourcesQuiet(def: GraphDef, materialized: PortRef -> bool, nets: seq<NetData>) {
    forall t :: !SourceTells(def, materialized, nets, t)
  }

  ghost predicate SinksQuiet(def: GraphDef, materialized: PortRef -> bool, sinks: seq<PortRef>) {
    forall t :: !SinksTell(def, materialized, sinks, t)
  }

  ghost predicate SinkQuiet(def: GraphDef, materialized: PortRef -> bool, sinks: seq<PortRef>, k: int)
    requires 0 <= k < |sinks|
  {
    forall t :: !SinkTells(def, materialized, sinks, k, t)
  }

  lemma SourcesSilent(def: GraphDef, materialized: PortRef -> bool, nets: seq<NetData>)
    ensures SourcesQuiet(def, materialized, nets) <==> SourcesOk(def, materialized, nets)
  {
    if n :| n in nets && !EndpointExists(def, materialized, PortEndpoint(n.source)) {
      assert SourceTells(def, materialized, nets, Dangling(PortEndpoint(n.source)));
    }
  }

  lemma {:induction false} SinksSilent(def: GraphDef, materialized: PortRef -> bool, sinks: seq<PortRef>)
    ensures SinksQuiet(def, materialized, sinks) <==> SinksOk(def, materialized, sinks)
  {
    if sinks != [] {
      var front, p := sinks[..|sinks| - 1], sinks[|sinks| - 1];
      assert sinks == front + [p];
      hide *;
      SinksSilent(def, materialized, front);
      SinksQuietLast(def, materialized, front, p);
      SinksStep(def, materialized, front, p);
      SinkSilent(def, materialized, front, p);
    }
  }

  lemma SinksQuietLast(def: GraphDef, materialized: PortRef -> bool, front: seq<PortRef>, p: PortRef)
    ensures SinksQuiet(def, materialized, front + [p]) <==>
            SinksQuiet(def, materialized, front) && SinkQuiet(def, materialized, front + [p], |front|)
  {
    hide SinksTell;
    hide SinkTells;
    SinksMore(def, materialized, front, p);
  }

  lemma SinkSilent(def: GraphDef, materialized: PortRef -> bool, front: seq<PortRef>, p: PortRef)
    ensures SinkQuiet(def, materialized, front + [p], |front|) <==>
              EndpointExists(def, materialized, PortEndpoint(p)) && p !in front
              && forall l :: l in def.links ==> l.to != PortEndpoint(p)
  {
    var sinks := front + [p];
    assert sinks[..|front|] == front && sinks[|front|] == p;
    hide EndpointExists;
    if !EndpointExists(def, materialized, PortEndpoint(p)) {
      assert SinkTells(def, materialized, sinks, |front|, Dangling(PortEndpoint(p)));
    } else if Targeted(def.links, PortEndpoint(p)) || p in front {
      assert SinkTells(def, materialized, sinks, |front|, InputMultiDriver(p));
    }
  }

  lemma SinksStep(def: GraphDef, materialized: PortRef -> bool, sinks: seq<PortRef>, p: PortRef)
    ensures SinksOk(def, materialized, sinks + [p]) <==>
            SinksOk(def, materialized, sinks) && EndpointExists(def, materialized, PortEndpoint(p)) && p !in sinks
            && forall l :: l in def.links ==> l.to != PortEndpoint(p)
  {
    var all := sinks + [p];
    if SinksOk(def, materialized, all) {
      assert forall q :: q in sinks ==> q in all;
      assert forall i :: 0 <= i < |sinks| ==> sinks[i] == all[i];
      assert all[|sinks|] == p;
    }
  }

  /**
   * The wiring checks report exactly what is to be told of links and nets, and of the alias chains only cycles, at
   * least one if there is any; so they report nothing exactly when the definition is well wired.
   */
  method CheckGraphDef(def: GraphDef, materialized: PortRef -> bool) returns (diags: seq<Diagnostic>)
    ensures forall d :: d in diags && !d.ChainCycle? <==> Tells(def, materialized, d)
    ensures forall d :: d in diags && d.ChainCycle? ==> ReachesPlus(KeyNext(def), d.key, d.key)
    ensures (exists d :: d in diags && d.ChainCycle?) <==> !Acyclic(KeyNext(def))
    ensures diags == [] <==> WellWired(def, materialized)
  {
    hide DriversOf;
    hide LinksTell;
    hide SourceTells;
    hide SinksTell;
    hide Targeted;
    hide ReachesPlus;
    hide Acyclic;
    hide LinksOk;
    hide SourcesOk;
    hide SinksOk;
    var d, links := CheckLinks(def, materialized);
    KnownDrivers(def, materialized, d);
    var chains := new CycleCheck(def, d.reroutes, d.selectors);
    chains.Run();
    var nets := CheckNets(def, materialized, d.inputs);
    diags := links + chains.diags + nets;
    LinksSilent(def, materialized, def.links);
    SourcesSilent(def, materialized, def.nets);
    SinksSilent(def, materialized, SinksOf(def.nets));
    NoneOnChains(def, materialized);
    assert chains.diags != [] ==> chains.diags[0] in diags && chains.diags[0].ChainCycle?;
    assert links != [] ==> links[0] in links;
    assert nets != [] ==> nets[0] in nets;
    assert links == [] <==> LinksQuiet(def, materialized, def.links);
    assert nets == [] <==>
      SourcesQuiet(def, materialized, def.nets) && SinksQuiet(def, materialized, SinksOf(def.nets));
  }

  lemma NoneOnChains(def: GraphDef, materialized: PortRef -> bool)
    ensures forall d :: Tells(def, materialized, d) ==> !d.ChainCycle?
  {
    hide Targeted;
  }

  lemma KnownDrivers(def: GraphDef, materialized: PortRef -> bool, d: Drivers)
    requires DriversOf(def, materialized, def.links, d)
    ensures DriversKnown(def, d.reroutes, d.selectors)
    ensures forall p :: p in d.inputs <==>
              EndpointExists(def, materialized, PortEndpoint(p)) && Targeted(def.links, PortEndpoint(p))
  {
    hide DriverOf;
    forall p
      ensures Targeted(def.links, PortEndpoint(p)) <==> DriverOf(def.links, PortEndpoint(p)).Some?
    {
      FirstDriver(def.links, PortEndpoint(p));
    }
    hide Targeted;
    forall s, l
      ensures Feeds(def, def.links, s, l) <==> l in KeyDrivers(def, SelectorRef(s, None))
    {
      if c :| c in Candidates(def, s) && Drives(def.links, SelectorRef(s, Some(c)), l) {
        assert l in DriverSet(def, SelectorRef(s, Some(c)));
      }
      if l in KeyDrivers(def, SelectorRef(s, None)) {
        var c :| c in Candidates(def, s) && l in DriverSet(def, SelectorRef(s, Some(c)));
        assert Drives(def.links, SelectorRef(s, Some(c)), l);
      }
    }
    hide Feeds;
    hide KeyDrivers;
  }

  // ---------------------------------------------------------------------
  // What a clean report means for every trace

  /** The alias an endpoint belongs to: a candidate belongs to its selector. */
  function KeyOf(e: LinkEndpoint): LinkEndpoint {
    if e.SelectorRef? then SelectorRef(e.selector, None) else e
  }

  /** In a well-wired definition a link into an alias comes from a port, a value source or another alias. */
  lemma DriverKey(def: GraphDef, materialized: PortRef -> bool, e: LinkEndpoint, target: LinkEndpoint, link: LinkData)
    requires LinksOk(def, materialized, def.links) && DriverOf(def.links, target) == Some(link)
    requires (e.RerouteRef? && target == e)
             || (e.SelectorRef? && target.SelectorRef? && target.selector == e.selector && target.candidate.Some?)
             || (e.WidgetTapRef? && target == PortEndpoint(TappedInput(e.node, e.tap)))
    ensures !IsCandidate(link.from)
    ensures IsKey(link.from) ==> link.from in KeyNext(def)(KeyOf(e))
  {
    assert LinkOk(def, materialized, link);
    if e.SelectorRef? {
      assert target.candidate.value in Candidates(def, e.selector) && link in DriverSet(def, target);
    }
    assert link in KeyDrivers(def, KeyOf(e));
  }

  ghost predicate Continues(def: GraphDef, selection: Option<SelectorResolution>, e: LinkEndpoint) {
    TraceLink(def, selection, e).Some?
  }

  lemma TraceEdgeKey(def: GraphDef, materialized: PortRef -> bool, selection: Option<SelectorResolution>,
                     e: LinkEndpoint, next: LinkEndpoint)
    requires LinksOk(def, materialized, def.links)
    requires next in TraceNext(def, selection)(e) && Continues(def, selection, next)
    ensures next in KeyNext(def)(KeyOf(e)) && KeyOf(next) == next
  {
    var link := TraceLink(def, selection, e).value;
    var target := match e
      case WidgetTapRef(node, tap) => PortEndpoint(TappedInput(node, tap))
      case SelectorRef(s, c) => SelectorRef(s, Chosen(selection, s, c))
      case _ => e;
    hide KeyNext;
    DriverKey(def, materialized, e, target, link);
  }

  lemma {:induction false} TraceWalkKeys(def: GraphDef, materialized: PortRef -> bool,
                                         selection: Option<SelectorResolution>, a: LinkEndpoint, p: seq<LinkEndpoint>,
                                         b: LinkEndpoint)
    requires LinksOk(def, materialized, def.links) && Walk(TraceNext(def, selection), a, p, b)
             && Continues(def, selection, b)
    ensures Continues(def, selection, a) && Reaches(KeyNext(def), KeyOf(a), KeyOf(b))
    decreases |p|
  {
    if p == [] {
      Refl(KeyNext(def), KeyOf(a));
    } else {
      TraceWalkKeys(def, materialized, selection, p[0], p[1..], b);
      TraceEdgeKey(def, materialized, selection, a, p[0]);
      Edge(KeyNext(def), KeyOf(a), p[0]);
      Trans(KeyNext(def), KeyOf(a), p[0], KeyOf(b));
    }
  }

  lemma LoopIsChainCycle(def: GraphDef, materialized: PortRef -> bool, selection: Option<SelectorResolution>,
                         e: LinkEndpoint)
    requires LinksOk(def, materialized, def.links) && ReachesPlus(TraceNext(def, selection), e, e)
    ensures ReachesPlus(KeyNext(def), KeyOf(e), KeyOf(e))
  {
    var c :| c in TraceNext(def, selection)(e) && Reaches(TraceNext(def, selection), c, e);
    var p :| Walk(TraceNext(def, selection), c, p, e);
    TraceWalkKeys(def, materialized, selection, c, p, e);
    TraceEdgeKey(def, materialized, selection, e, c);
  }

  /**
   * A definition the checks report nothing for is never traced into a cycle: from any
   * endpoint, under any selector resolution, with or without an index.
   */
  lemma CheckedNeverLoops(def: GraphDef, materialized: PortRef -> bool, selection: Option<SelectorResolution>,
                          from: LinkEndpoint, t: RerouteTrace)
    requires WellWired(def, materialized)
    ensures !Loops(def, selection, from, t)
  {
    if Loops(def, selection, from, t) {
      var e :| ReachesPlus(TraceNext(def, selection), e, e);
      LoopIsChainCycle(def, materialized, selection, e);
    }
  }

  /**
   * Every link of a checked definition joins elements that exist, from one that gives a value to one that takes
   * it; the candidate it may feed is one that the selector's output expands to.
   */
  lemma CheckedLinksJoin(def: GraphDef, materialized: PortRef -> bool, l: LinkData)
    requires WellWired(def, materialized) && l in def.links
    ensures match l.from
            case PortEndpoint(ref) => ref.node in def.nodes && materialized(ref)
            case ValueSourceRef(v) => v in def.valueSources
            case RerouteRef(r) => r in def.reroutes
            case SelectorRef(s, c) => c.None? && s in def.selectors
            case WidgetTapRef(node, _) => node in def.nodes
    ensures match l.to
            case PortEndpoint(ref) => ref.node in def.nodes && materialized(ref)
            case RerouteRef(r) => r in def.reroutes
            case SelectorRef(s, c) => c.Some? && l.to in AllNext(def, true, map[])(SelectorRef(s, None))
            case _ => false
  {
    assert LinkOk(def, materialized, l);
    if l.to.SelectorRef? {
      var cs, branches := Candidates(def, l.to.selector), Branches(def, map[], l.to.selector);
      var i :| 0 <= i < |cs| && cs[i] == l.to.candidate.value;
      assert branches[i] == l.to;
    }
    hide Acyclic;
    hide NetsOk;
  }

  lemma StructureEdgeKey(def: GraphDef, materialized: PortRef -> bool, x: LinkEndpoint, y: LinkEndpoint)
    requires LinksOk(def, materialized, def.links)
    requires y in AllNext(def, true, map[])(x) && AllNext(def, true, map[])(y) != {}
    ensures if x.SelectorRef? && x.candidate.None? then y.SelectorRef? && y.candidate.Some? && KeyOf(y) == x
            else y in KeyNext(def)(KeyOf(x)) && KeyOf(y) == y
  {
    if x.SelectorRef? && x.candidate.None? {
      var branches := Branches(def, map[], x.selector);
      assert y in branches;
    } else {
      var target := if x.WidgetTapRef? then PortEndpoint(TappedInput(x.node, x.tap)) else x;
      if DriverOf(def.links, target).Some? {
        DriverKey(def, materialized, x, target, DriverOf(def.links, target).value);
      }
    }
  }

  lemma {:induction false} StructureWalkKeys(def: GraphDef, materialized: PortRef -> bool, a: LinkEndpoint,
                                             p: seq<LinkEndpoint>, b: LinkEndpoint)
    requires LinksOk(def, materialized, def.links) && Walk(AllNext(def, true, map[]), a, p, b)
             && AllNext(def, true, map[])(b) != {}
    ensures AllNext(def, true, map[])(a) != {} && Reaches(KeyNext(def), KeyOf(a), KeyOf(b))
    decreases |p|
  {
    if p == [] {
      Refl(KeyNext(def), KeyOf(a));
    } else {
      StructureWalkKeys(def, materialized, p[0], p[1..], b);
      StructureEdgeKey(def, materialized, a, p[0]);
      if !(a.SelectorRef? && a.candidate.None?) {
        Edge(KeyNext(def), KeyOf(a), p[0]);
        Trans(KeyNext(def), KeyOf(a), p[0], KeyOf(b));
      }
    }
  }

  lemma StructureCycleKey(def: GraphDef, materialized: PortRef -> bool, x: LinkEndpoint)
    requires LinksOk(def, materialized, def.links) && ReachesPlus(AllNext(def, true, map[]), x, x)
    ensures ReachesPlus(KeyNext(def), KeyOf(x), KeyOf(x))
  {
    var next := AllNext(def, true, map[]);
    var c :| c in next(x) && Reaches(next, c, x);
    var p :| Walk(next, c, p, x);
    StructureWalkKeys(def, materialized, c, p, x);
    StructureEdgeKey(def, materialized, x, c);
    if x.SelectorRef? && x.candidate.None? {
      assert p != [];
      StructureWalkKeys(def, materialized, p[0], p[1..], x);
      StructureEdgeKey(def, materialized, c, p[0]);
    }
  }

  /** The checks also exclude every cycle of the upstream relation that expands all candidates. */
  lemma CheckedStructureAcyclic(def: GraphDef, materialized: PortRef -> bool)
    requires WellWired(def, materialized)
    ensures Acyclic(AllNext(def, true, map[]))
  {
    forall x
      ensures !ReachesPlus(AllNext(def, true, map[]), x, x)
    {
      if ReachesPlus(AllNext(def, true, map[]), x, x) {
        StructureCycleKey(def, materialized, x);
      }
    }
  }

  // ---------------------------------------------------------------------
  // Index and scan agree on checked definitions

  lemma {:induction false} ListedSink(nets: seq<NetData>, n: NetData, p: PortRef)
    requires n in nets && p in n.sinks
    ensures p in SinksOf(nets)
  {
    var last := nets[|nets| - 1];
    if n != last {
      assert nets == nets[..|nets| - 1] + [last];
      ListedSink(nets[..|nets| - 1], n, p);
    }
  }

  lemma {:induction false} FirstAfter(nets: seq<NetData>, n: NetData, p: PortRef)
    ensures FirstNetSource(nets + [n], p) ==
              if FirstNetSource(nets, p).Some? then FirstNetSource(nets, p) else if p in n.sinks then Some(n.source)
              else None
  {
    if nets != [] && p !in nets[0].sinks {
      assert (nets + [n])[1..] == nets[1..] + [n];
      FirstAfter(nets[1..], n, p);
    } else if nets == [] {
      assert FirstNetSource([n][1..], p) == None;
      assert nets + [n] == [n];
    }
  }

  lemma ListedTwice(before: seq<NetData>, last: NetData, p: PortRef)
    requires p in last.sinks && FirstNetSource(before, p).Some?
    ensures exists i, j ::
            0 <= i < j < |SinksOf(before + [last])| && SinksOf(before + [last])[i] == SinksOf(before + [last])[j]
  {
    hide SinksOf;
    hide FirstNetSource;
    var n :| n in before && p in n.sinks;
    ListedSink(before, n, p);
    SinksOfMore(before, last);
    var i :| 0 <= i < |SinksOf(before)| && SinksOf(before)[i] == p;
    var j :| 0 <= j < |last.sinks| && last.sinks[j] == p;
    var sinks := SinksOf(before) + last.sinks;
    assert sinks[i] == p && sinks[|SinksOf(before)| + j] == p;
  }

  /** Where no sink is listed twice, the first net that lists an input is the last one. */
  lemma {:induction false} FirstIsLast(nets: seq<NetData>, p: PortRef)
    requires forall i, j :: 0 <= i < j < |SinksOf(nets)| ==> SinksOf(nets)[i] != SinksOf(nets)[j]
    ensures FirstNetSource(nets, p) == LastNetSource(nets, p)
  {
    if nets != [] {
      var before, last := nets[..|nets| - 1], nets[|nets| - 1];
      assert nets == before + [last];
      assert forall i :: 0 <= i < |SinksOf(before)| ==> SinksOf(nets)[i] == SinksOf(before)[i];
      FirstIsLast(before, p);
      FirstAfter(before, last, p);
      if p in last.sinks && FirstNetSource(before, p).Some? {
        ListedTwice(before, last, p);
      }
    }
  }

  /** On a checked definition a trace is the same with a built index and without one. */
  lemma CheckedTraceIgnoresIndex(def: GraphDef, materialized: PortRef -> bool, selection: Option<SelectorResolution>,
                                 from: LinkEndpoint, t: RerouteTrace)
    requires WellWired(def, materialized)
    ensures Resolves(def, true, selection, from, t) <==> Resolves(def, false, selection, from, t)
  {
    forall e, lastLink
      ensures TraceEnd(def, true, selection, e, lastLink) == TraceEnd(def, false, selection, e, lastLink)
    {
      if e.WidgetTapRef? {
        FirstIsLast(def.nets, TappedInput(e.node, e.tap));
      }
    }
    hide TraceEnd;
    hide Arrived;
    hide TraceNext;
    hide Reaches;
  }
}
