/**
 * Planning a paste and committing it: the plan predicts the ids the commit mints, refuses exactly
 * when a mint would fail, and the pasted links join the copies the copied links joined.
 */
module ClipboardPlan {
  import opened Identity
  import opened Ordered
  import opened AllocatedIds
  import opened Allocation
  import opened NetPastes
  import opened Reroute

  datatype NodeItem = NodeItem(id: Id, nodeType: Id)

  /** An input of a copied node that was fed from outside the copy; `body` holds the rest of the source's address. */
  datatype Stub = Stub(graph: Id, lineage: Id, source: Id, sourceType: Id, body: Id, target: PortRef, targetType: Id)

  /**
   * A normalized envelope: `scope` is the lineage and graph it was copied from, `groups` the copied
   * groups, and `definitions` stands for the definitions and occurrence topologies that ride along.
   */
  datatype Envelope = Envelope(
    version: nat,
    scope: Option<(Id, Id)>,
    nodes: seq<NodeItem>,
    reroutes: seq<Id>,
    links: seq<LinkData>,
    externalIncoming: seq<Stub>,
    nets: seq<NetRecord>,
    groups: seq<Id>,
    definitions: Option<Id>)

  datatype Group = Group(id: string, body: Id)

  /**
   * The graph pasted into: the type of each of its nodes, its nets, its groups with their cursor,
   * and the group ids that durable bindings name.
   */
  datatype Target = Target(
    lineage: Id,
    graph: Id,
    nodeTypes: map<Id, Id>,
    nets: seq<ExistingNet>,
    groupSeq: Option<nat>,
    groups: seq<Group>,
    referenced: seq<string>)

  /** What planning the definitions of an envelope looks at. */
  datatype Copied = Copied(scope: Option<(Id, Id)>, nodes: seq<NodeItem>, links: seq<LinkData>, definitions: Option<Id>)

  /** The new type of each instance type whose definition was planned, or nothing when planning refuses. */
  type DefinitionPlanner = Copied -> Option<map<Id, Id>>

  function CopiedOf(env: Envelope): Copied {
    Copied(env.scope, env.nodes, env.links, env.definitions)
  }

  function NodeIds(env: Envelope): seq<Id> {
    seq(|env.nodes|, i requires 0 <= i < |env.nodes| => env.nodes[i].id)
  }

  function NodeIdSet(env: Envelope): set<Id> {
    set i | 0 <= i < |env.nodes| :: env.nodes[i].id
  }

  function Retype(nodeType: Id, ids: map<Id, Id>): Id {
    if nodeType in ids then ids[nodeType] else nodeType
  }

  /** The net records with their source types renamed as the pasted nodes' are. */
  function NetRecords(env: Envelope, ids: map<Id, Id>): (records: seq<NetRecord>)
    ensures |records| == |env.nets|
  {
    seq(|env.nets|, i requires 0 <= i < |env.nets| => env.nets[i].(sourceType := Retype(env.nets[i].sourceType, ids)))
  }

  function DestinationOf(t: Target): Destination {
    Destination(t.nets, t.nodeTypes)
  }

  /** How many nets the paste creates. */
  function Created(lower: Name -> Id, t: Target, env: Envelope, ids: map<Id, Id>): nat {
    CreatedNets(lower, DestinationOf(t), NodeIdSet(env), NetRecords(env, ids))
  }

  function GroupKeys(t: Target): seq<string> {
    seq(|t.groups|, i requires 0 <= i < |t.groups| => t.groups[i].id) + t.referenced
  }

  function FloorOf(t: Target): nat {
    GroupFloor(t.groupSeq, GroupKeys(t))
  }

  /** Normalization rejects an envelope that names a node or a reroute twice. */
  ghost predicate Normalized(env: Envelope) {
    Distinct(NodeIds(env)) && Distinct(env.reroutes)
  }

  function Survives(env: Envelope, e: LinkEndpoint): bool {
    match e
    case RerouteRef(r) => r in env.reroutes
    case WidgetTapRef(n, _) => n in NodeIds(env)
    case PortEndpoint(ref) => ref.node in NodeIds(env)
    case _ => false
  }

  function RetainedOf(env: Envelope): LinkData -> bool {
    (l: LinkData) => Survives(env, l.from) && Survives(env, l.to)
  }

  /** The links whose two ends were copied. */
  function Retained(env: Envelope): seq<LinkData> {
    Filter(env.links, RetainedOf(env))
  }

  // ---------------------------------------------------------------------
  // Inputs fed from outside the copy

  function CountAt(stubs: seq<Stub>, target: PortRef): nat {
    if stubs == [] then 0 else (if stubs[0].target == target then 1 else 0) + CountAt(stubs[1..], target)
  }

  predicate Occupied(env: Envelope, target: PortRef) {
    exists l :: l in env.links && l.to == PortEndpoint(target) && target.node in NodeIds(env)
  }

  predicate TargetTyped(env: Envelope, node: Id, nodeType: Id) {
    exists i :: i in env.nodes && i == NodeItem(node, nodeType)
  }

  /**
   * A stub still fits: same document and graph, its source there with the type recorded, its
   * target copied, free and not named twice. `resolves` says that both dynamic addresses resolve.
   */
  predicate ValidStub(t: Target, env: Envelope, stubs: seq<Stub>, resolves: Stub -> bool, s: Stub) {
    && s.graph == t.graph && s.lineage == t.lineage && env.scope == Some((t.lineage, t.graph))
    && s.source !in NodeIds(env) && !Occupied(env, s.target)
    && s.source in t.nodeTypes && t.nodeTypes[s.source] == s.sourceType && TargetTyped(env, s.target.node, s.targetType)
    && CountAt(stubs, s.target) == 1 && resolves(s)
  }

  function ValidOf(t: Target, env: Envelope, resolves: Stub -> bool, accept: Stub -> bool): Stub -> bool {
    (s: Stub) => ValidStub(t, env, env.externalIncoming, resolves, s) && accept(s)
  }

  function ValidExternalIncoming(t: Target, env: Envelope, resolves: Stub -> bool, accept: Stub -> bool): seq<Stub> {
    if env.version < 2 then [] else Filter(env.externalIncoming, ValidOf(t, env, resolves, accept))
  }

  function AcceptAll(): Stub -> bool {
    (s: Stub) => true
  }

  lemma {:induction false} FilterKeepsAll(xs: seq<Stub>, keep: Stub -> bool)
    requires forall x :: x in xs ==> keep(x)
    ensures Filter(xs, keep) == xs
  {
    if xs != [] {
      assert xs == [xs[0]] + xs[1..];
      FilterKeepsAll(xs[1..], keep);
    }
  }

  lemma {:induction false} CountFiltered(xs: seq<Stub>, keep: Stub -> bool, target: PortRef)
    ensures CountAt(Filter(xs, keep), target) <= CountAt(xs, target)
  {
    if xs != [] {
      CountFiltered(xs[1..], keep, target);
      if keep(xs[0]) {
        assert Filter(xs, keep)[1..] == Filter(xs[1..], keep);
      } else {
        assert Filter(xs, keep) == Filter(xs[1..], keep);
      }
    }
  }

  lemma {:induction false} CountPresent(xs: seq<Stub>, s: Stub)
    requires s in xs
    ensures CountAt(xs, s.target) >= 1
  {
    if xs[0] != s {
      assert xs == [xs[0]] + xs[1..];
      CountPresent(xs[1..], s);
    }
  }

  /** Revalidating the stubs a plan kept keeps them all: the commit wires what the plan counted. */
  lemma IncomingIdempotent(t: Target, env: Envelope, resolves: Stub -> bool, accept: Stub -> bool)
    ensures var kept := ValidExternalIncoming(t, env, resolves, accept);
            ValidExternalIncoming(t, env.(externalIncoming := kept), resolves, AcceptAll()) == kept
  {
    var kept := ValidExternalIncoming(t, env, resolves, accept);
    var env' := env.(externalIncoming := kept);
    if env.version >= 2 {
      assert NodeIds(env') == NodeIds(env);
      forall s | s in kept
        ensures ValidOf(t, env', resolves, AcceptAll())(s)
      {
        assert ValidStub(t, env, env.externalIncoming, resolves, s);
        CountFiltered(env.externalIncoming, ValidOf(t, env, resolves, accept), s.target);
        CountPresent(kept, s);
        assert Occupied(env', s.target) <==> Occupied(env, s.target);
        assert TargetTyped(env', s.target.node, s.targetType) <==> TargetTyped(env, s.target.node, s.targetType);
      }
      FilterKeepsAll(kept, ValidOf(t, env', resolves, AcceptAll()));
    }
  }

  // ---------------------------------------------------------------------
  // The plan

  /** The ids of `n` mints of one prefix from an ordinal on. */
  function IdsFrom(prefix: Prefix, start: nat, n: nat, actor: Option<string>): seq<string> {
    seq(n, i requires 0 <= i < n => FormatAllocatedId(Text(prefix), start + i, actor))
  }

  lemma IdsStep(prefix: Prefix, start: nat, n: nat, actor: Option<string>)
    ensures IdsFrom(prefix, start, n + 1, actor) ==
            IdsFrom(prefix, start, n, actor) + [FormatAllocatedId(Text(prefix), start + n, actor)]
  {
  }

  /** Every mint of a paste: nodes, reroutes, links kept, inputs rewired and nets created. */
  function Mints(env: Envelope, incoming: seq<Stub>, created: nat): nat {
    |env.nodes| + |env.reroutes| + |Retained(env)| + |incoming| + created
  }

  datatype Plan = Plan(nodeIds: seq<string>, rerouteIds: seq<string>, incoming: seq<Stub>)

  predicate ValidActor(actor: Option<string>) {
    actor.Some? ==> IsValidActorId(actor.value)
  }

  /** The stubs a plan rewires, if it is asked to. */
  function PlannedIncoming(t: Target, env: Envelope, resolves: Stub -> bool, accept: Stub -> bool,
                           connectInputs: bool): seq<Stub>
  {
    if connectInputs then ValidExternalIncoming(t, env, resolves, accept) else []
  }

  method PredictIds(prefix: Prefix, start: nat, n: nat, actor: Option<string>) returns (ids: seq<string>)
    ensures ids == IdsFrom(prefix, start, n, actor)
  {
    var ordinal := start;
    ids := [];
    NothingMinted(prefix, start, actor);
    hide *;
    for i := 0 to n
      invariant ordinal == start + i && ids == IdsFrom(prefix, start, i, actor)
    {
      IdsStep(prefix, start, i, actor);
      ids := ids + [FormatAllocatedId(Text(prefix), ordinal, actor)];
      ordinal := ordinal + 1;
    }
  }

  predicate NothingCopied(env: Envelope) {
    env.nodes == [] && env.reroutes == [] && env.groups == []
  }

  /** Something was copied, its definitions can be planned, and every mint fits under its cursor. */
  predicate Plannable(d: Ordinals, actor: Option<string>, lower: Name -> Id, t: Target, env: Envelope,
                      incoming: seq<Stub>, definitions: DefinitionPlanner)
  {
    && !NothingCopied(env)
    && definitions(CopiedOf(env)).Some?
    && ValidActor(actor)
    && CursorOf(d, actor) + Mints(env, incoming,
       Created(lower, t, env, definitions(CopiedOf(env)).value)) <= MAX_SAFE_INTEGER
    && FloorOf(t) + |env.groups| <= MAX_SAFE_INTEGER
  }

  /** Every mint the commit will make is counted against its cursor before an id is predicted. */
  method PlanClipboardPaste(d: Ordinals, actor: Option<string>, lower: Name -> Id, t: Target, env: Envelope,
                            resolves: Stub -> bool, accept: Stub -> bool, definitions: DefinitionPlanner,
                            connectInputs: bool)
    returns (plan: Option<Plan>)
    requires SuffixesApart(lower)
    ensures var start, incoming := CursorOf(d, actor), PlannedIncoming(t, env, resolves, accept, connectInputs);
            && (plan.Some? <==> Plannable(d, actor, lower, t, env, incoming, definitions))
            && (plan.Some? ==>
                  && plan.value.nodeIds == IdsFrom(NodePrefix, start, |env.nodes|, actor)
                  && plan.value.rerouteIds == IdsFrom(ReroutePrefix, start + |env.nodes|, |env.reroutes|, actor)
                  && plan.value.incoming == incoming)
  {
    hide GroupFloor;
    hide GroupKeys;
    hide ParseGroupKey;
    hide Calls;
    hide NamesFresh;
    hide SuffixesApart;
    hide IdsFrom;
    hide ValidExternalIncoming;
    hide Filter;
    hide CopiedOf;
    if env.nodes == [] && env.reroutes == [] && env.groups == [] {
      return None;
    }
    var ids := definitions(CopiedOf(env));
    if ids.None? {
      return None;
    }
    if actor.Some? && !IsValidActorId(actor.value) {
      return None;
    }
    var retainedLinks := Filter(env.links, RetainedOf(env));
    var ordinal := CursorOf(d, actor);
    var incoming := if connectInputs then ValidExternalIncoming(t, env, resolves, accept) else [];
    var records := NetRecords(env, ids.value);
    var actions := ResolveNetPastes(lower, DestinationOf(t), NodeIdSet(env), records);
    CreationsCounted(lower, DestinationOf(t), NodeIdSet(env), records, actions);
    hide CreatedNets;
    var count := |env.nodes| + |env.reroutes| + |retainedLinks| + |incoming| + |Filter(actions, IsCreate())|;
    if ordinal > MAX_SAFE_INTEGER || count > MAX_SAFE_INTEGER - ordinal {
      return None;
    }
    var floor := GroupIdFloor(t.groupSeq, GroupKeys(t));
    if |env.groups| > MAX_SAFE_INTEGER - floor {
      return None;
    }
    var nodeIds := PredictIds(NodePrefix, ordinal, |env.nodes|, actor);
    var rerouteIds := PredictIds(ReroutePrefix, ordinal + |env.nodes|, |env.reroutes|, actor);
    return Some(Plan(nodeIds, rerouteIds, incoming));
  }

  // ---------------------------------------------------------------------
  // The commit

  /** An endpoint of a pasted link. */
  datatype PastedEnd = PastedPort(node: string, port: Id, members: seq<Id>) | PastedTap(node: string, tap: Id)
    | PastedReroute(reroute: string)

  datatype PastedLink = PastedLink(id: string, from: PastedEnd, to: PastedEnd)

  /** An input of a copy wired to a source that was there before; `body` holds the rest of the source's address. */
  datatype RewiredLink = RewiredLink(id: string, source: Id, body: Id, to: PastedEnd)

  /** What a net record became; its sinks are the inputs of copies that nothing else drives. */
  datatype PastedNet =
    | NewNet(id: string, name: Name, source: PortRef, sourceNode: Option<string>, sinks: seq<PastedEnd>)
    | JoinedNet(net: Id, sinks: seq<PastedEnd>)

  datatype Pasted = Pasted(
    nodeIds: seq<string>,
    rerouteIds: seq<string>,
    links: seq<PastedLink>,
    incoming: seq<RewiredLink>,
    nets: seq<PastedNet>,
    groups: seq<Group>,
    groupSeq: Option<nat>,
    ordinals: Ordinals)

  /** The minted id of each copied item. */
  function Renaming(sources: seq<Id>, ids: seq<string>): map<Id, string>
    requires |sources| == |ids|
  {
    if sources == [] then map[]
    else Renaming(sources[..|sources| - 1], ids[..|ids| - 1])[sources[|sources| - 1] := ids[|ids| - 1]]
  }

  function RemapEnd(nodeMap: map<Id, string>, rerouteMap: map<Id, string>, e: LinkEndpoint): Option<PastedEnd> {
    match e
    case RerouteRef(r) => if r in rerouteMap then Some(PastedReroute(rerouteMap[r])) else None
    case WidgetTapRef(n, tap) => if n in nodeMap then Some(PastedTap(nodeMap[n], tap)) else None
    case PortEndpoint(ref) => if ref.node in nodeMap then Some(PastedPort(nodeMap[ref.node], ref.port, ref.members))
      else None
    case _ => None
  }

  lemma {:induction false} RenamingKeys(sources: seq<Id>, ids: seq<string>)
    requires |sources| == |ids|
    ensures forall x :: x in Renaming(sources, ids) <==> x in sources
  {
    if sources != [] {
      RenamingKeys(sources[..|sources| - 1], ids[..|ids| - 1]);
      assert sources == sources[..|sources| - 1] + [sources[|sources| - 1]];
    }
  }

  lemma {:induction false} RenamingAt(sources: seq<Id>, ids: seq<string>, i: nat)
    requires |sources| == |ids| && Distinct(sources) && i < |sources|
    ensures sources[i] in Renaming(sources, ids) && Renaming(sources, ids)[sources[i]] == ids[i]
  {
    if i < |sources| - 1 {
      RenamingAt(sources[..|sources| - 1], ids[..|ids| - 1], i);
    }
  }

  /** Mints an id for each copied item; nothing stands for the exception of an exhausted cursor. */
  method PasteItems(alloc: GraphAllocator, prefix: Prefix, sources: seq<Id>)
    returns (ids: Option<seq<string>>, names: map<Id, string>)
    modifies alloc
    ensures ids.Some? <==> sources == [] || old(alloc.ordinal) + |sources| <= MAX_SAFE_INTEGER
    ensures ids.Some? ==>
            alloc.ordinal == old(alloc.ordinal) + |sources|
              && ids.value == IdsFrom(prefix, old(alloc.ordinal), |sources|, alloc.actor)
    ensures ids.Some? ==> names == Renaming(sources, ids.value)
  {
    var minted: seq<string> := [];
    names := map[];
    var start := alloc.ordinal;
    NothingMinted(prefix, start, alloc.actor);
    assert sources[..0] == [];
    hide *;
    for i := 0 to |sources|
      invariant alloc.ordinal == start + i && (i > 0 ==> start + i <= MAX_SAFE_INTEGER)
      invariant |minted| == i && minted == IdsFrom(prefix, start, i, alloc.actor)
                && names == Renaming(sources[..i], minted)
    {
      IdsStep(prefix, start, i, alloc.actor);
      var id := alloc.Mint(prefix);
      if id.None? {
        return None, names;
      }
      RenamingStep(sources, i, minted, id.value);
      names := names[sources[i] := id.value];
      minted := minted + [id.value];
    }
    assert sources[..|sources|] == sources;
    ids := Some(minted);
  }

  lemma NothingMinted(prefix: Prefix, start: nat, actor: Option<string>)
    ensures IdsFrom(prefix, start, 0, actor) == [] && Renaming([], []) == map[]
  {
  }

  lemma RenamingStep(sources: seq<Id>, i: nat, ids: seq<string>, id: string)
    requires i < |sources| && |ids| == i
    ensures Renaming(sources[..i + 1], ids + [id]) == Renaming(sources[..i], ids)[sources[i] := id]
  {
    assert sources[..i + 1][..i] == sources[..i] && (ids + [id])[..i] == ids;
  }

  /** The pasted copy of a link whose two ends were copied, or nothing. */
  function PastedCopy(nodeMap: map<Id, string>, rerouteMap: map<Id, string>, l: LinkData, id: string): seq<PastedLink> {
    match (RemapEnd(nodeMap, rerouteMap, l.from), RemapEnd(nodeMap, rerouteMap, l.to))
    case (Some(from), Some(to)) => [PastedLink(id, from, to)]
    case _ => []
  }

  function LinkId(ordinal: nat, actor: Option<string>): string {
    FormatAllocatedId(Text(LinkPrefix), ordinal, actor)
  }

  /** The copies of the links with both ends copied, in order, each under the next id. */
  function PastedCopies(nodeMap: map<Id, string>, rerouteMap: map<Id, string>, links: seq<LinkData>, start: nat,
                        actor: Option<string>): seq<PastedLink>
  {
    if links == [] then []
    else
      var front := PastedCopies(nodeMap, rerouteMap, links[..|links| - 1], start, actor);
      front + PastedCopy(nodeMap, rerouteMap, links[|links| - 1], LinkId(start + |front|, actor))
  }

  predicate Remaps(nodeMap: map<Id, string>, rerouteMap: map<Id, string>, l: LinkData) {
    RemapEnd(nodeMap, rerouteMap, l.from).Some? && RemapEnd(nodeMap, rerouteMap, l.to).Some?
  }

  function RemapsOf(nodeMap: map<Id, string>, rerouteMap: map<Id, string>): LinkData -> bool {
    (l: LinkData) => Remaps(nodeMap, rerouteMap, l)
  }

  lemma CopySize(nodeMap: map<Id, string>, rerouteMap: map<Id, string>, l: LinkData, id: string)
    ensures |PastedCopy(nodeMap, rerouteMap, l, id)| == if Remaps(nodeMap, rerouteMap, l) then 1 else 0
  {
    hide RemapEnd;
  }

  /** The last link either adds its copy or nothing. */
  lemma CopiesLast(nodeMap: map<Id, string>, rerouteMap: map<Id, string>, front: seq<LinkData>, last: LinkData,
                   start: nat, actor: Option<string>)
    ensures var copies := PastedCopies(nodeMap, rerouteMap, front, start, actor);
            PastedCopies(nodeMap, rerouteMap, front + [last], start, actor) ==
              copies + PastedCopy(nodeMap, rerouteMap, last, LinkId(start + |copies|, actor))
  {
    hide PastedCopy;
    hide LinkId;
    hide FormatAllocatedId;
    hide RemapEnd;
    assert (front + [last])[..|front|] == front;
  }

  lemma {:induction false} CopiesCounted(nodeMap: map<Id, string>, rerouteMap: map<Id, string>, links: seq<LinkData>,
                                         start: nat, actor: Option<string>)
    ensures |PastedCopies(nodeMap, rerouteMap, links, start, actor)| == |Filter(links, RemapsOf(nodeMap, rerouteMap))|
  {
    if links != [] {
      var front, last := links[..|links| - 1], links[|links| - 1];
      assert links == front + [last];
      CopiesCounted(nodeMap, rerouteMap, front, start, actor);
      FilterAppend(front, last, RemapsOf(nodeMap, rerouteMap));
      CopiesLast(nodeMap, rerouteMap, front, last, start, actor);
      CopySize(nodeMap, rerouteMap, last,
        LinkId(start + |PastedCopies(nodeMap, rerouteMap, front, start, actor)|, actor));
      assert RemapsOf(nodeMap, rerouteMap)(last) == Remaps(nodeMap, rerouteMap, last);
      hide *;
    }
  }

  /** One link: pasted under a fresh id if both ends were copied, skipped without a mint otherwise. */
  method PasteLink(alloc: GraphAllocator, nodeMap: map<Id, string>, rerouteMap: map<Id, string>, link: LinkData)
    returns (ok: bool, copy: seq<PastedLink>)
    modifies alloc
    ensures ok <==> Remaps(nodeMap, rerouteMap, link) ==> old(alloc.ordinal) < MAX_SAFE_INTEGER
    ensures ok ==>
            copy == PastedCopy(nodeMap, rerouteMap, link, LinkId(old(alloc.ordinal), alloc.actor))
              && alloc.ordinal == old(alloc.ordinal) + |copy|
    ensures ok ==> |copy| == if Remaps(nodeMap, rerouteMap, link) then 1 else 0
  {
    hide FormatAllocatedId;
    hide RemapEnd;
    var from, to := RemapEnd(nodeMap, rerouteMap, link.from), RemapEnd(nodeMap, rerouteMap, link.to);
    if from.None? || to.None? {
      return true, [];
    }
    var id := alloc.Mint(LinkPrefix);
    if id.None? {
      return false, [];
    }
    return true, [PastedLink(id.value, from.value, to.value)];
  }

  /** The copies of the first `n` links. */
  function CopiesUpTo(nodeMap: map<Id, string>, rerouteMap: map<Id, string>, links: seq<LinkData>, n: nat, start: nat,
                      actor: Option<string>): seq<PastedLink>
    requires n <= |links|
  {
    PastedCopies(nodeMap, rerouteMap, links[..n], start, actor)
  }

  lemma CopiesNext(nodeMap: map<Id, string>, rerouteMap: map<Id, string>, links: seq<LinkData>, i: nat, start: nat,
                   actor: Option<string>)
    requires i < |links|
    ensures var copies := CopiesUpTo(nodeMap, rerouteMap, links, i, start, actor);
            CopiesUpTo(nodeMap, rerouteMap, links, i + 1, start, actor) ==
              copies + PastedCopy(nodeMap, rerouteMap, links[i], LinkId(start + |copies|, actor))
    ensures |CopiesUpTo(nodeMap, rerouteMap, links, i + 1, start, actor)| <= |PastedCopies(nodeMap, rerouteMap, links,
            start, actor)|
  {
    hide PastedCopies;
    hide PastedCopy;
    hide LinkId;
    hide FormatAllocatedId;
    hide RemapEnd;
    assert links[..i + 1] == links[..i] + [links[i]];
    CopiesLast(nodeMap, rerouteMap, links[..i], links[i], start, actor);
    CopiesGrow(nodeMap, rerouteMap, links, i + 1, start, actor);
  }

  lemma CopiesEnds(nodeMap: map<Id, string>, rerouteMap: map<Id, string>, links: seq<LinkData>, start: nat,
                   actor: Option<string>)
    ensures CopiesUpTo(nodeMap, rerouteMap, links, 0, start, actor) == []
    ensures CopiesUpTo(nodeMap, rerouteMap, links, |links|, start, actor) ==
            PastedCopies(nodeMap, rerouteMap, links, start, actor)
  {
    assert links[..0] == [] && links[..|links|] == links;
  }

  /** The next link of the loop below. */
  method PasteNext(alloc: GraphAllocator, nodeMap: map<Id, string>, rerouteMap: map<Id, string>, links: seq<LinkData>,
                   i: nat, ghost start: nat, out: seq<PastedLink>)
    returns (ok: bool, out': seq<PastedLink>)
    requires i < |links| && out == CopiesUpTo(nodeMap, rerouteMap, links, i, start, alloc.actor)
             && alloc.ordinal == start + |out|
    modifies alloc
    ensures ok ==>
            out' == CopiesUpTo(nodeMap, rerouteMap, links, i + 1, start, alloc.actor) && alloc.ordinal == start + |out'|
    ensures ok ==> |out'| == |out| || (|out'| == |out| + 1 && start + |out| < MAX_SAFE_INTEGER)
    ensures !ok ==>
            start + |out| >= MAX_SAFE_INTEGER
              && |CopiesUpTo(nodeMap, rerouteMap, links, i + 1, start, alloc.actor)| == |out| + 1
  {
    CopiesNext(nodeMap, rerouteMap, links, i, start, alloc.actor);
    CopySize(nodeMap, rerouteMap, links[i], LinkId(start + |out|, alloc.actor));
    hide *;
    var copy;
    ok, copy := PasteLink(alloc, nodeMap, rerouteMap, links[i]);
    out' := out + copy;
  }

  /** Links with both ends copied are pasted in order. */
  method PasteLinks(alloc: GraphAllocator, nodeMap: map<Id, string>, rerouteMap: map<Id, string>, links: seq<LinkData>)
    returns (ok: bool, out: seq<PastedLink>)
    modifies alloc
    ensures var copies := PastedCopies(nodeMap, rerouteMap, links, old(alloc.ordinal), alloc.actor);
            && (ok <==> |copies| == 0 || old(alloc.ordinal) + |copies| <= MAX_SAFE_INTEGER)
            && (ok ==> out == copies && alloc.ordinal == old(alloc.ordinal) + |copies|)
  {
    ghost var start := alloc.ordinal;
    ok, out := true, [];
    CopiesEnds(nodeMap, rerouteMap, links, start, alloc.actor);
    hide *;
    for i := 0 to |links|
      invariant ok && out == CopiesUpTo(nodeMap, rerouteMap, links, i, start, alloc.actor)
      invariant alloc.ordinal == start + |out| && (|out| > 0 ==> start + |out| <= MAX_SAFE_INTEGER)
    {
      CopiesNext(nodeMap, rerouteMap, links, i, start, alloc.actor);
      ok, out := PasteNext(alloc, nodeMap, rerouteMap, links, i, start, out);
      if !ok {
        return;
      }
    }
  }

  lemma {:induction false} CopiesGrow(nodeMap: map<Id, string>, rerouteMap: map<Id, string>, links: seq<LinkData>,
                                      n: nat, start: nat, actor: Option<string>)
    requires n <= |links|
    ensures |PastedCopies(nodeMap, rerouteMap, links[..n], start, actor)| <= |PastedCopies(nodeMap, rerouteMap, links,
            start, actor)|
    decreases |links|
  {
    if n < |links| {
      var front := links[..|links| - 1];
      CopiesGrow(nodeMap, rerouteMap, front, n, start, actor);
      assert front[..n] == links[..n];
      assert links == front + [links[|links| - 1]];
      CopiesLast(nodeMap, rerouteMap, front, links[|links| - 1], start, actor);
      hide *;
    } else {
      assert links[..n] == links;
    }
  }

  function TargetsOf(nodeMap: map<Id, string>): Stub -> bool {
    (s: Stub) => s.target.node in nodeMap
  }

  /** Each input is wired, under the next id, from the source its stub names to the copy of its target. */
  ghost predicate RewiredAs(nodeMap: map<Id, string>, stubs: seq<Stub>, start: nat, actor: Option<string>,
                            links: seq<RewiredLink>)
  {
    && |links| == |stubs|
    && forall k :: 0 <= k < |stubs| ==>
         && links[k].id == LinkId(start + k, actor)
         && links[k].source == stubs[k].source && links[k].body == stubs[k].body
         && stubs[k].target.node in nodeMap
         && links[k].to == PastedPort(nodeMap[stubs[k].target.node], stubs[k].target.port, stubs[k].target.members)
  }

  lemma RewiredMore(nodeMap: map<Id, string>, stubs: seq<Stub>, i: nat, start: nat, actor: Option<string>,
                    links: seq<RewiredLink>)
    requires i < |stubs| && RewiredAs(nodeMap, Filter(stubs[..i], TargetsOf(nodeMap)), start, actor, links)
    ensures stubs[i].target.node !in nodeMap ==>
              RewiredAs(nodeMap, Filter(stubs[..i + 1], TargetsOf(nodeMap)), start, actor, links)
    ensures stubs[i].target.node in nodeMap ==>
              var s := stubs[i];
              var link := RewiredLink(LinkId(start + |links|, actor), s.source, s.body,
                                      PastedPort(nodeMap[s.target.node], s.target.port, s.target.members));
              RewiredAs(nodeMap, Filter(stubs[..i + 1], TargetsOf(nodeMap)), start, actor, links + [link])
    ensures |Filter(stubs[..i + 1], TargetsOf(nodeMap))| ==
            |Filter(stubs[..i], TargetsOf(nodeMap))| + if stubs[i].target.node in nodeMap then 1 else 0
    ensures |Filter(stubs[..i + 1], TargetsOf(nodeMap))| <= |Filter(stubs, TargetsOf(nodeMap))|
  {
    hide Filter;
    hide LinkId;
    assert stubs[..i + 1] == stubs[..i] + [stubs[i]];
    FilterAppend(stubs[..i], stubs[i], TargetsOf(nodeMap));
    FilterGrows(stubs, i + 1, TargetsOf(nodeMap));
  }

  lemma {:induction false} FilterGrows(stubs: seq<Stub>, n: nat, keep: Stub -> bool)
    requires n <= |stubs|
    ensures |Filter(stubs[..n], keep)| <= |Filter(stubs, keep)|
    decreases |stubs| - n
  {
    if n < |stubs| {
      FilterGrows(stubs, n + 1, keep);
      assert stubs[..n + 1] == stubs[..n] + [stubs[n]];
      FilterAppend(stubs[..n], stubs[n], keep);
    } else {
      assert stubs[..n] == stubs;
    }
  }

  lemma NothingRewired(nodeMap: map<Id, string>, stubs: seq<Stub>, start: nat, actor: Option<string>)
    ensures Filter(stubs[..0], TargetsOf(nodeMap)) == [] && stubs[..|stubs|] == stubs
    ensures RewiredAs(nodeMap, [], start, actor, [])
  {
  }

  /** Wires the inputs fed from outside the copy; a stub whose target was not copied is skipped without a mint. */
  method RewireInputs(alloc: GraphAllocator, nodeMap: map<Id, string>, incoming: seq<Stub>)
    returns (ok: bool, links: seq<RewiredLink>)
    modifies alloc
    ensures var stubs := Filter(incoming, TargetsOf(nodeMap));
            && (ok <==> stubs == [] || old(alloc.ordinal) + |stubs| <= MAX_SAFE_INTEGER)
            && (ok ==> alloc.ordinal == old(alloc.ordinal) + |stubs|
                       && RewiredAs(nodeMap, stubs, old(alloc.ordinal), alloc.actor, links))
  {
    hide Filter;
    hide RewiredAs;
    hide FormatAllocatedId;
    var start := alloc.ordinal;
    ok, links := true, [];
    NothingRewired(nodeMap, incoming, start, alloc.actor);
    for i := 0 to |incoming|
      invariant ok && |links| == |Filter(incoming[..i], TargetsOf(nodeMap))| && alloc.ordinal == start + |links|
      invariant |links| > 0 ==> alloc.ordinal <= MAX_SAFE_INTEGER
      invariant RewiredAs(nodeMap, Filter(incoming[..i], TargetsOf(nodeMap)), start, alloc.actor, links)
    {
      var stub := incoming[i];
      RewiredMore(nodeMap, incoming, i, start, alloc.actor, links);
      if stub.target.node in nodeMap {
        var id := alloc.Mint(LinkPrefix);
        if id.None? {
          return false, links;
        }
        var to := PastedPort(nodeMap[stub.target.node], stub.target.port, stub.target.members);
        links := links + [RewiredLink(id.value, stub.source, stub.body, to)];
      }
    }
  }

  /** What a link needs to be pasted is what the plan counted. */
  lemma RetainedIsRemapped(env: Envelope, nodeIds: seq<string>, rerouteIds: seq<string>)
    requires |nodeIds| == |env.nodes| && |rerouteIds| == |env.reroutes|
    ensures Filter(env.links, RemapsOf(Renaming(NodeIds(env), nodeIds), Renaming(env.reroutes, rerouteIds))) ==
            Retained(env)
  {
    RenamingKeys(NodeIds(env), nodeIds);
    RenamingKeys(env.reroutes, rerouteIds);
    hide Renaming;
    FilterSame(env.links, RemapsOf(Renaming(NodeIds(env), nodeIds), Renaming(env.reroutes, rerouteIds)),
      RetainedOf(env));
  }

  function CopiedTargets(env: Envelope): Stub -> bool {
    (s: Stub) => s.target.node in NodeIds(env)
  }

  /** The mints of a commit: stubs whose target was not copied are skipped. */
  function Committed(env: Envelope, incoming: seq<Stub>, created: nat): nat {
    Mints(env, Filter(incoming, CopiedTargets(env)), created)
  }

  // ---------------------------------------------------------------------
  // Net memberships

  /** The copy of a net's sink, if its node was copied. */
  function SinkCopy(nodeMap: map<Id, string>, s: PortRef): Option<PastedEnd> {
    RemapEnd(nodeMap, map[], PortEndpoint(s))
  }

  function Elems(xs: seq<PastedEnd>): set<PastedEnd> {
    set x | x in xs
  }

  /** The inputs that pasted links and rewired inputs drive. */
  function Driven(links: seq<PastedLink>, incoming: seq<RewiredLink>): set<PastedEnd> {
    (set l | l in links && l.to.PastedPort? :: l.to) + (set l | l in incoming :: l.to)
  }

  function AllSinks(nets: seq<PastedNet>): seq<PastedEnd> {
    if nets == [] then [] else AllSinks(nets[..|nets| - 1]) + nets[|nets| - 1].sinks
  }

  /** The ids of the nets made, in order. */
  function NetIds(nets: seq<PastedNet>): seq<string> {
    if nets == [] then []
    else
      var last := nets[|nets| - 1];
      NetIds(nets[..|nets| - 1]) + if last.NewNet? then [last.id] else []
  }

  /** Sinks land on free inputs only, and on each of them once. */
  ghost predicate Places(placed: seq<PastedEnd>, taken: set<PastedEnd>, taken': set<PastedEnd>) {
    Distinct(placed) && (forall e :: e in placed ==> e !in taken) && taken' == taken + Elems(placed)
  }

  lemma PlacesMore(a: seq<PastedEnd>, b: seq<PastedEnd>, t0: set<PastedEnd>, t1: set<PastedEnd>, t2: set<PastedEnd>)
    requires Places(a, t0, t1) && Places(b, t1, t2)
    ensures Places(a + b, t0, t2)
  {
    assert Elems(a + b) == Elems(a) + Elems(b);
    forall i, j | 0 <= i < j < |a + b|
      ensures (a + b)[i] != (a + b)[j]
    {
      if i < |a| <= j {
        assert (a + b)[i] in Elems(a) && (a + b)[j] in b;
      }
    }
  }

  /** A sink whose copy exists ends up driven: by this net, or by what took its input before. */
  ghost predicate Covers(nodeMap: map<Id, string>, sinks: seq<PortRef>, taken: set<PastedEnd>) {
    forall s :: s in sinks && SinkCopy(nodeMap, s).Some? ==> SinkCopy(nodeMap, s).value in taken
  }

  /** Only copies of the record's own sinks are placed. */
  ghost predicate FromSinks(nodeMap: map<Id, string>, sinks: seq<PortRef>, placed: seq<PastedEnd>) {
    forall e :: e in placed ==> exists s :: s in sinks && SinkCopy(nodeMap, s) == Some(e)
  }

  lemma Extends(nodeMap: map<Id, string>, sinks: seq<PortRef>, n: nat, taken: set<PastedEnd>, placed: seq<PastedEnd>,
                e: PastedEnd)
    requires n < |sinks| && SinkCopy(nodeMap, sinks[n]) == Some(e)
    requires Covers(nodeMap, sinks[..n], taken) && FromSinks(nodeMap, sinks, placed)
    ensures Covers(nodeMap, sinks[..n + 1], taken + {e}) && FromSinks(nodeMap, sinks, placed + [e])
  {
    assert sinks[n] in sinks;
  }

  method PlaceSinks(nodeMap: map<Id, string>, sinks: seq<PortRef>, taken: set<PastedEnd>)
    returns (placed: seq<PastedEnd>, taken': set<PastedEnd>)
    ensures Places(placed, taken, taken') && Covers(nodeMap, sinks, taken') && FromSinks(nodeMap, sinks, placed)
  {
    placed, taken' := [], taken;
    for n := 0 to |sinks|
      invariant Places(placed, taken, taken')
      invariant Covers(nodeMap, sinks[..n], taken') && FromSinks(nodeMap, sinks, placed)
    {
      var copy := SinkCopy(nodeMap, sinks[n]);
      if copy.Some? {
        if copy.value !in taken' {
          Extends(nodeMap, sinks, n, taken', placed, copy.value);
          assert Elems(placed + [copy.value]) == Elems(placed) + {copy.value};
          placed, taken' := placed + [copy.value], taken' + {copy.value};
        }
      }
      assert sinks[..n + 1] == sinks[..n] + [sinks[n]];
    }
    assert sinks[..|sinks|] == sinks;
  }

  /** What one action leaves: a net under the given id, sinks that join a net, or nothing. */
  ghost predicate Becomes(nodeMap: map<Id, string>, r: NetRecord, a: Action, id: string, made: seq<PastedNet>) {
    match a
    case Skip => made == []
    case Create(name, sourceCopied) =>
      && |made| == 1 && made[0].NewNet? && made[0].id == id && made[0].name == name && made[0].source == r.source
      && made[0].sourceNode == (if sourceCopied then Lookup(nodeMap, r.source.node) else None)
      && FromSinks(nodeMap, r.sinks, made[0].sinks)
    case Merge(net) =>
      made == [] || (|made| == 1 && made[0].JoinedNet? && made[0].net == net
        && FromSinks(nodeMap, r.sinks, made[0].sinks))
  }

  function NetId(ordinal: nat, actor: Option<string>): string {
    FormatAllocatedId(Text(NetPrefix), ordinal, actor)
  }

  /** One record: only a net of its own takes a mint. */
  method PasteNet(alloc: GraphAllocator, nodeMap: map<Id, string>, r: NetRecord, a: Action, taken: set<PastedEnd>)
    returns (ok: bool, made: seq<PastedNet>, taken': set<PastedEnd>)
    requires a.Create? && a.sourceCopied ==> r.source.node in nodeMap
    modifies alloc
    ensures ok <==> a.Create? ==> old(alloc.ordinal) < MAX_SAFE_INTEGER
    ensures ok ==> alloc.ordinal == old(alloc.ordinal) + if a.Create? then 1 else 0
    ensures ok ==> Becomes(nodeMap, r, a, NetId(old(alloc.ordinal), alloc.actor), made)
    ensures ok ==> |made| <= 1 && Places(if made == [] then [] else made[0].sinks, taken, taken')
    ensures ok && !a.Skip? ==> Covers(nodeMap, r.sinks, taken')
  {
    hide FormatAllocatedId;
    hide SinkCopy;
    hide Places;
    hide Covers;
    hide FromSinks;
    NothingPlaced(taken);
    if a.Skip? {
      return true, [], taken;
    }
    var sinks;
    sinks, taken' := PlaceSinks(nodeMap, r.sinks, taken);
    if a.Merge? {
      return true, if sinks == [] then [] else [JoinedNet(a.net, sinks)], taken';
    }
    var id := alloc.Mint(NetPrefix);
    if id.None? {
      return false, [], taken;
    }
    var sourceNode := if a.sourceCopied then Some(nodeMap[r.source.node]) else None;
    return true, [NewNet(id.value, a.name, r.source, sourceNode, sinks)], taken';
  }

  lemma NothingPlaced(taken: set<PastedEnd>)
    ensures Places([], taken, taken)
  {
  }

  /** Every sink of a record that was not dropped is driven in the end. */
  ghost predicate AllCovered(nodeMap: map<Id, string>, records: seq<NetRecord>, actions: seq<Action>, n: nat,
                             taken: set<PastedEnd>)
    requires n <= |records| == |actions|
  {
    forall i :: 0 <= i < n && !actions[i].Skip? ==> Covers(nodeMap, records[i].sinks, taken)
  }

  function Flat(parts: seq<seq<PastedNet>>): seq<PastedNet> {
    if parts == [] then [] else Flat(parts[..|parts| - 1]) + parts[|parts| - 1]
  }

  /** What each action left, one after the other, the nets created under consecutive ids. */
  ghost predicate InTurn(nodeMap: map<Id, string>, records: seq<NetRecord>, actions: seq<Action>,
                         parts: seq<seq<PastedNet>>, start: nat, actor: Option<string>)
    requires |parts| <= |records| == |actions|
  {
    forall i :: 0 <= i < |parts| ==>
      Becomes(nodeMap, records[i], actions[i], NetId(start + Creations(actions, i), actor), parts[i])
  }

  ghost predicate MadeInTurn(nodeMap: map<Id, string>, records: seq<NetRecord>, actions: seq<Action>, n: nat,
                             nets: seq<PastedNet>, start: nat, actor: Option<string>)
    requires n <= |records| == |actions|
  {
    exists parts :: |parts| == n && Flat(parts) == nets && InTurn(nodeMap, records, actions, parts, start, actor)
  }

  lemma InTurnMore(nodeMap: map<Id, string>, records: seq<NetRecord>, actions: seq<Action>, n: nat,
                   nets: seq<PastedNet>, start: nat, actor: Option<string>, made: seq<PastedNet>)
    requires n < |records| == |actions| && MadeInTurn(nodeMap, records, actions, n, nets, start, actor)
    requires Becomes(nodeMap, records[n], actions[n], NetId(start + Creations(actions, n), actor), made)
    ensures MadeInTurn(nodeMap, records, actions, n + 1, nets + made, start, actor)
  {
    hide Becomes;
    hide Creations;
    hide NetId;
    var parts :| |parts| == n && Flat(parts) == nets && InTurn(nodeMap, records, actions, parts, start, actor);
    var more := parts + [made];
    assert more[..n] == parts;
    assert Flat(more) == nets + made && InTurn(nodeMap, records, actions, more, start, actor);
  }

  /**
   * The nets of a paste answer its records: actions the destination calls for, what each of them leaves in turn,
   * and every sink of a record that was not dropped driven in the end.
   */
  ghost predicate NetsAnswer(lower: Name -> Id, d: Destination, nodeMap: map<Id, string>, records: seq<NetRecord>,
                             nets: seq<PastedNet>, driven: set<PastedEnd>, start: nat, actor: Option<string>)
  {
    exists actions :: AnswersBy(lower, d, nodeMap, records, nets, driven, start, actor, actions)
  }

  ghost predicate AnswersBy(lower: Name -> Id, d: Destination, nodeMap: map<Id, string>, records: seq<NetRecord>,
                            nets: seq<PastedNet>, driven: set<PastedEnd>, start: nat, actor: Option<string>,
                            actions: seq<Action>)
  {
    && |actions| == |records| && Answers(lower, d, nodeMap.Keys, records, actions)
    && MadeInTurn(nodeMap, records, actions, |actions|, nets, start, actor)
    && AllCovered(nodeMap, records, actions, |actions|, driven + Elems(AllSinks(nets)))
  }

  lemma NetsAnswered(lower: Name -> Id, d: Destination, nodeMap: map<Id, string>, records: seq<NetRecord>,
                     nets: seq<PastedNet>, driven: set<PastedEnd>, taken: set<PastedEnd>, start: nat,
                     actor: Option<string>, actions: seq<Action>)
    requires Answers(lower, d, nodeMap.Keys, records, actions) && |actions| == |records|
    requires NetsPasted(nodeMap, records, actions, |actions|, driven, nets, taken, start, actor)
    ensures NetsAnswer(lower, d, nodeMap, records, nets, driven, start, actor)
    ensures Distinct(AllSinks(nets)) && forall e :: e in AllSinks(nets) ==> e !in driven
    ensures NetIds(nets) == IdsFrom(NetPrefix, start, Creations(actions, |actions|), actor)
  {
    hide Answers;
    hide MadeInTurn;
    hide AllCovered;
    hide AllSinks;
    hide NetIds;
    hide Creations;
    hide IdsFrom;
    assert AnswersBy(lower, d, nodeMap, records, nets, driven, start, actor, actions);
  }

  /** The nets so far: what the records called for, under consecutive ids, on distinct free inputs. */
  ghost predicate NetsPasted(nodeMap: map<Id, string>, records: seq<NetRecord>, actions: seq<Action>, n: nat,
                             driven: set<PastedEnd>, nets: seq<PastedNet>, taken: set<PastedEnd>, start: nat,
                             actor: Option<string>)
    requires n <= |records| == |actions|
  {
    && NetIds(nets) == IdsFrom(NetPrefix, start, Creations(actions, n), actor)
    && Places(AllSinks(nets), driven, taken)
    && AllCovered(nodeMap, records, actions, n, taken)
    && MadeInTurn(nodeMap, records, actions, n, nets, start, actor)
  }

  /** How many of the first `n` actions create a net. */
  function Creations(actions: seq<Action>, n: nat): nat
    requires n <= |actions|
  {
    |Filter(actions[..n], IsCreate())|
  }

  lemma CreationsStep(actions: seq<Action>, n: nat)
    requires n < |actions|
    ensures Creations(actions, n + 1) == Creations(actions, n) + if actions[n].Create? then 1 else 0
    ensures Creations(actions, n + 1) <= Creations(actions, |actions|)
  {
    assert actions[..n + 1] == actions[..n] + [actions[n]];
    FilterAppend(actions[..n], actions[n], IsCreate());
    CreationsGrow(actions, n + 1);
  }

  lemma {:induction false} CreationsGrow(actions: seq<Action>, n: nat)
    requires n <= |actions|
    ensures Creations(actions, n) <= Creations(actions, |actions|)
    decreases |actions| - n
  {
    if n < |actions| {
      CreationsGrow(actions, n + 1);
      assert actions[..n + 1] == actions[..n] + [actions[n]];
      FilterAppend(actions[..n], actions[n], IsCreate());
    }
  }

  lemma NetsStart(nodeMap: map<Id, string>, records: seq<NetRecord>, actions: seq<Action>, driven: set<PastedEnd>,
                  start: nat, actor: Option<string>)
    requires |records| == |actions|
    ensures Creations(actions, 0) == 0 && NetsPasted(nodeMap, records, actions, 0, driven, [], driven, start, actor)
  {
    assert Flat([]) == [] && InTurn(nodeMap, records, actions, [], start, actor);
  }

  lemma NetsNext(nodeMap: map<Id, string>, records: seq<NetRecord>, actions: seq<Action>, n: nat,
                 driven: set<PastedEnd>, nets: seq<PastedNet>, taken: set<PastedEnd>, start: nat, actor: Option<string>,
                 made: seq<PastedNet>, taken': set<PastedEnd>)
    requires n < |records| == |actions| && NetsPasted(nodeMap, records, actions, n, driven, nets, taken, start, actor)
    requires Becomes(nodeMap, records[n], actions[n], NetId(start + Creations(actions, n), actor), made) && |made| <= 1
    requires Places(if made == [] then [] else made[0].sinks, taken, taken')
    requires !actions[n].Skip? ==> Covers(nodeMap, records[n].sinks, taken')
    ensures NetsPasted(nodeMap, records, actions, n + 1, driven, nets + made, taken', start, actor)
  {
    var sinks := if made == [] then [] else made[0].sinks;
    PlacesMore(AllSinks(nets), sinks, driven, taken, taken');
    CreationsStep(actions, n);
    IdsStep(NetPrefix, start, Creations(actions, n), actor);
    NetsGrow(nets, made);
    CoversMore(nodeMap, records, actions, n, taken, taken');
    hide Creations;
    hide IdsFrom;
    hide FormatAllocatedId;
    hide Places;
    hide AllCovered;
    hide NetIds;
    hide AllSinks;
    hide Covers;
    hide SinkCopy;
    hide MadeInTurn;
    InTurnMore(nodeMap, records, actions, n, nets, start, actor, made);
  }

  lemma NetsGrow(nets: seq<PastedNet>, made: seq<PastedNet>)
    requires |made| <= 1
    ensures AllSinks(nets + made) == AllSinks(nets) + if made == [] then [] else made[0].sinks
    ensures NetIds(nets + made) == NetIds(nets) + if made != [] && made[0].NewNet? then [made[0].id] else []
  {
    if made == [] {
      assert nets + made == nets;
    } else {
      assert (nets + made)[..|nets|] == nets;
    }
  }

  lemma CoversMore(nodeMap: map<Id, string>, records: seq<NetRecord>, actions: seq<Action>, n: nat,
                   taken: set<PastedEnd>, taken': set<PastedEnd>)
    requires n < |records| == |actions| && AllCovered(nodeMap, records, actions, n, taken) && taken <= taken'
    requires !actions[n].Skip? ==> Covers(nodeMap, records[n].sinks, taken')
    ensures AllCovered(nodeMap, records, actions, n + 1, taken')
  {
    forall i | 0 <= i < n && !actions[i].Skip?
      ensures Covers(nodeMap, records[i].sinks, taken')
    {
      assert Covers(nodeMap, records[i].sinks, taken);
    }
  }

  method PasteNets(alloc: GraphAllocator, nodeMap: map<Id, string>, driven: set<PastedEnd>, records: seq<NetRecord>,
                   actions: seq<Action>)
    returns (ok: bool, nets: seq<PastedNet>, ghost taken: set<PastedEnd>)
    requires |records| == |actions|
    requires forall i ::
             0 <= i < |actions| && actions[i].Create? && actions[i].sourceCopied ==> records[i].source.node in nodeMap
    modifies alloc
    ensures var n := Creations(actions, |actions|);
            && (ok <==> n == 0 || old(alloc.ordinal) + n <= MAX_SAFE_INTEGER)
            && (ok ==>
                  && alloc.ordinal == old(alloc.ordinal) + n
                  && NetsPasted(nodeMap, records, actions, |actions|, driven, nets, taken, old(alloc.ordinal),
                     alloc.actor))
  {
    hide *;
    ghost var start := alloc.ordinal;
    nets, taken := [], driven;
    var used := driven;
    NetsStart(nodeMap, records, actions, driven, start, alloc.actor);
    for i := 0 to |actions|
      invariant used == taken && alloc.ordinal == start + Creations(actions, i)
      invariant Creations(actions, i) > 0 ==> alloc.ordinal <= MAX_SAFE_INTEGER
      invariant NetsPasted(nodeMap, records, actions, i, driven, nets, taken, start, alloc.actor)
    {
      CreationsStep(actions, i);
      var made, used';
      ok, made, used' := PasteNet(alloc, nodeMap, records[i], actions[i], used);
      if !ok {
        return;
      }
      NetsNext(nodeMap, records, actions, i, driven, nets, taken, start, alloc.actor, made, used');
      nets, used, taken := nets + made, used', used';
    }
    ok := true;
  }

  // ---------------------------------------------------------------------
  // Groups

  /** The pasted groups: consecutive ids from the floor on, none of them live or named by a binding. */
  ghost predicate NewGroups(t: Target, bodies: seq<Id>, n: nat, groups: seq<Group>)
    requires n <= |bodies|
  {
    && |groups| == n
    && (forall k :: 0 <= k < n ==> groups[k] == Group(FormatGroupId(FloorOf(t) + k), bodies[k]))
    && (forall k :: 0 <= k < n ==> groups[k].id !in GroupKeys(t))
    && (forall i, k :: 0 <= i < k < n ==> groups[i].id != groups[k].id)
  }

  lemma NextGroup(t: Target, bodies: seq<Id>, n: nat, groups: seq<Group>)
    requires n < |bodies| && NewGroups(t, bodies, n, groups) && FloorOf(t) + n < MAX_SAFE_INTEGER
    ensures FormatGroupId(FloorOf(t) + n) !in GroupKeys(t)
    ensures NewGroups(t, bodies, n + 1, groups + [Group(FormatGroupId(FloorOf(t) + n), bodies[n])])
  {
    GroupIdsFresh(GroupKeys(t), FloorOf(t), FloorOf(t) + n);
    forall i | 0 <= i < n
      ensures groups[i].id != FormatGroupId(FloorOf(t) + n)
    {
      if groups[i].id == FormatGroupId(FloorOf(t) + n) {
        GroupIdInjective(FloorOf(t) + i, FloorOf(t) + n);
      }
    }
    hide GroupFloor;
    hide GroupKeys;
    hide FormatGroupId;
    hide ParseGroupKey;
  }

  lemma LiveIsKey(t: Target, id: string)
    requires exists i :: 0 <= i < |t.groups| && t.groups[i].id == id
    ensures id in GroupKeys(t)
  {
    var i :| 0 <= i < |t.groups| && t.groups[i].id == id;
    assert GroupKeys(t)[i] == id;
  }

  /** Mints from the floor of all evidence; the id is never taken, and only an exhausted cursor fails. */
  method PasteGroups(t: Target, bodies: seq<Id>) returns (pasted: Option<seq<Group>>, groupSeq: Option<nat>)
    ensures pasted.Some? <==> bodies == [] || FloorOf(t) + |bodies| <= MAX_SAFE_INTEGER
    ensures pasted.Some? ==> NewGroups(t, bodies, |bodies|, pasted.value)
    ensures pasted.Some? ==> groupSeq == if bodies == [] then t.groupSeq else Some(FloorOf(t) + |bodies|)
  {
    if bodies == [] {
      return Some([]), t.groupSeq;
    }
    var ordinal := GroupIdFloor(t.groupSeq, GroupKeys(t));
    var groups: seq<Group> := [];
    hide GroupFloor;
    hide GroupKeys;
    hide FormatGroupId;
    for n := 0 to |bodies|
      invariant ordinal == FloorOf(t) + n && (n > 0 ==> ordinal <= MAX_SAFE_INTEGER)
      invariant NewGroups(t, bodies, n, groups)
    {
      if ordinal > MAX_SAFE_INTEGER || ordinal + 1 > MAX_SAFE_INTEGER {
        return None, t.groupSeq;
      }
      var id := FormatGroupId(ordinal);
      NextGroup(t, bodies, n, groups);
      if exists i :: 0 <= i < |t.groups| && t.groups[i].id == id {
        LiveIsKey(t, id);
        assert false;
      }
      groups := groups + [Group(id, bodies[n])];
      ordinal := ordinal + 1;
    }
    return Some(groups), Some(ordinal);
  }

  // ---------------------------------------------------------------------
  // The commit as a whole

  datatype Topology = Topology(
    nodeIds: seq<string>,
    rerouteIds: seq<string>,
    links: seq<PastedLink>,
    incoming: seq<RewiredLink>,
    nodeMap: map<Id, string>)

  /** Nodes, reroutes, links and rewired inputs, each under the next id of its kind. */
  ghost predicate TopologyPasted(env: Envelope, incoming: seq<Stub>, start: nat, actor: Option<string>, made: Topology)
  {
    && |made.nodeIds| == |env.nodes| && |made.rerouteIds| == |env.reroutes|
    && made.nodeIds == IdsFrom(NodePrefix, start, |env.nodes|, actor)
    && made.rerouteIds == IdsFrom(ReroutePrefix, start + |env.nodes|, |env.reroutes|, actor)
    && made.nodeMap == Renaming(NodeIds(env), made.nodeIds)
    && made.links == PastedCopies(made.nodeMap, Renaming(env.reroutes, made.rerouteIds), env.links,
                                  start + |env.nodes| + |env.reroutes|, actor)
    && RewiredAs(made.nodeMap, Filter(incoming, CopiedTargets(env)),
                 start + |env.nodes| + |env.reroutes| + |made.links|, actor, made.incoming)
  }

  method PasteTopology(alloc: GraphAllocator, env: Envelope, incoming: seq<Stub>) returns (made: Option<Topology>)
    modifies alloc
    ensures var start, total := old(alloc.ordinal), Committed(env, incoming, 0);
            && (made.Some? <==> total == 0 || start + total <= MAX_SAFE_INTEGER)
            && (made.Some? ==>
               alloc.ordinal == start + total && TopologyPasted(env, incoming, start, alloc.actor, made.value))
  {
    hide Filter;
    hide Renaming;
    hide PastedCopies;
    hide IdsFrom;
    hide FormatAllocatedId;
    hide Survives;
    hide RemapEnd;
    hide RewiredAs;
    var start := alloc.ordinal;
    var nodeIds, nodeMap := PasteItems(alloc, NodePrefix, NodeIds(env));
    if nodeIds.None? {
      return None;
    }
    var rerouteIds, rerouteMap := PasteItems(alloc, ReroutePrefix, env.reroutes);
    if rerouteIds.None? {
      return None;
    }
    LengthsOf(alloc.actor, start, env, nodeIds.value, rerouteIds.value);
    CopiesMatchPlan(env, nodeIds.value, rerouteIds.value, start + |env.nodes| + |env.reroutes|, alloc.actor);
    var ok, links := PasteLinks(alloc, nodeMap, rerouteMap, env.links);
    if !ok {
      return None;
    }
    TargetsMatchPlan(env, nodeIds.value, incoming);
    var rewired;
    ok, rewired := RewireInputs(alloc, nodeMap, incoming);
    if !ok {
      return None;
    }
    return Some(Topology(nodeIds.value, rerouteIds.value, links, rewired, nodeMap));
  }

  /** The nodes minted for are the nodes copied, so both sides ask the net records the same question. */
  lemma MintedForCopied(env: Envelope, nodeIds: seq<string>)
    requires |nodeIds| == |env.nodes|
    ensures Renaming(NodeIds(env), nodeIds).Keys == NodeIdSet(env)
  {
    RenamingKeys(NodeIds(env), nodeIds);
    forall x
      ensures x in NodeIds(env) <==> x in NodeIdSet(env)
    {
      if x in NodeIdSet(env) {
        var i :| 0 <= i < |env.nodes| && env.nodes[i].id == x;
        assert NodeIds(env)[i] == x;
      }
    }
    hide Renaming;
  }

  lemma SourcesCopied(lower: Name -> Id, d: Destination, copied: set<Id>, records: seq<NetRecord>, actions: seq<Action>)
    requires Answers(lower, d, copied, records, actions)
    ensures forall i ::
            0 <= i < |actions| && actions[i].Create? && actions[i].sourceCopied ==> records[i].source.node in copied
  {
    forall i | 0 <= i < |actions| && actions[i].Create? && actions[i].sourceCopied
      ensures records[i].source.node in copied
    {
      assert Calls(lower, d, copied, records[i], actions[i]);
    }
  }

  lemma AllCreations(actions: seq<Action>)
    ensures Creations(actions, |actions|) == |Filter(actions, IsCreate())|
  {
    assert actions[..|actions|] == actions;
  }

  /** No net sink lands on an input that something pasted drives already, nor two on one. */
  ghost predicate SinksApart(made: Pasted) {
    Distinct(AllSinks(made.nets)) && forall e :: e in AllSinks(made.nets) ==> e !in Driven(made.links, made.incoming)
  }

  /** The definitions can be planned, and no mint of a node, reroute, link, net or group fails. */
  predicate Pasteable(d: Ordinals, actor: Option<string>, lower: Name -> Id, t: Target, env: Envelope,
                      incoming: seq<Stub>, definitions: DefinitionPlanner)
  {
    && definitions(CopiedOf(env)).Some?
    && (var total := Committed(env, incoming, Created(lower, t, env, definitions(CopiedOf(env)).value));
        total == 0 || CursorOf(d, actor) + total <= MAX_SAFE_INTEGER)
    && (env.groups == [] || FloorOf(t) + |env.groups| <= MAX_SAFE_INTEGER)
  }

  /** What a commit makes: consecutive ids kind by kind, the copied links, net sinks on free inputs, new groups. */
  ghost predicate PastedAs(d: Ordinals, actor: Option<string>, lower: Name -> Id, t: Target, env: Envelope,
                           incoming: seq<Stub>, definitions: DefinitionPlanner, made: Pasted)
    requires Pasteable(d, actor, lower, t, env, incoming, definitions)
  {
    var start, created := CursorOf(d, actor), Created(lower, t, env, definitions(CopiedOf(env)).value);
    && made.nodeIds == IdsFrom(NodePrefix, start, |env.nodes|, actor)
    && made.rerouteIds == IdsFrom(ReroutePrefix, start + |env.nodes|, |env.reroutes|, actor)
    && |made.nodeIds| == |env.nodes| && |made.rerouteIds| == |env.reroutes|
    && (var nodeMap, rerouteMap := Renaming(NodeIds(env), made.nodeIds), Renaming(env.reroutes, made.rerouteIds);
        && made.links == PastedCopies(nodeMap, rerouteMap, env.links, start + |env.nodes| + |env.reroutes|, actor)
        && RewiredAs(nodeMap, Filter(incoming, CopiedTargets(env)),
                     start + |env.nodes| + |env.reroutes| + |made.links|, actor, made.incoming)
        && SinksApart(made)
        && NetsAnswer(lower, DestinationOf(t), nodeMap, NetRecords(env, definitions(CopiedOf(env)).value), made.nets,
                      Driven(made.links, made.incoming), start + Committed(env, incoming, 0), actor))
    && NetIds(made.nets) == IdsFrom(NetPrefix, start + Committed(env, incoming, 0), created, actor)
    && NewGroups(t, env.groups, |env.groups|, made.groups)
    && CursorOf(made.ordinals, actor) == start + Committed(env, incoming, created)
  }

  /** Commits a paste; nothing stands for the exception that rejects it as a whole. */
  method Materialize(d: Ordinals, actor: Option<string>, lower: Name -> Id, t: Target, env: Envelope,
                     incoming: seq<Stub>, definitions: DefinitionPlanner)
    returns (pasted: Option<Pasted>)
    requires SuffixesApart(lower)
    ensures pasted.Some? <==> Pasteable(d, actor, lower, t, env, incoming, definitions)
    ensures pasted.Some? ==> PastedAs(d, actor, lower, t, env, incoming, definitions, pasted.value)
  {
    hide Filter;
    hide Renaming;
    hide PastedCopies;
    hide IdsFrom;
    hide WithCursor;
    hide CreatedNets;
    hide NetRecords;
    hide NodeIds;
    hide NodeIdSet;
    hide Answers;
    hide SuffixesApart;
    hide NamesFresh;
    hide Creations;
    hide NewGroups;
    hide GroupFloor;
    hide AllCovered;
    hide Driven;
    hide AllSinks;
    hide NetIds;
    hide Retained;
    hide CursorOf;
    hide RewiredAs;
    hide NetsAnswer;
    hide NetsPasted;
    var ids := definitions(CopiedOf(env));
    if ids.None? {
      return None;
    }
    var alloc := new GraphAllocator(d, actor);
    var topology := PasteTopology(alloc, env, incoming);
    if topology.None? {
      return None;
    }
    var made := topology.value;
    MintedForCopied(env, made.nodeIds);
    var records := NetRecords(env, ids.value);
    var actions := ResolveNetPastes(lower, DestinationOf(t), made.nodeMap.Keys, records);
    CreationsCounted(lower, DestinationOf(t), made.nodeMap.Keys, records, actions);
    SourcesCopied(lower, DestinationOf(t), made.nodeMap.Keys, records, actions);
    AllCreations(actions);
    AnswersAlike(lower, DestinationOf(t), made.nodeMap.Keys, records, actions);
    ghost var netStart := alloc.ordinal;
    var ok, nets, taken := PasteNets(alloc, made.nodeMap, Driven(made.links, made.incoming), records, actions);
    if !ok {
      return None;
    }
    NetsAnswered(lower, DestinationOf(t), made.nodeMap, records, nets, Driven(made.links, made.incoming), taken,
      netStart,
      actor, actions);
    var groups, groupSeq := PasteGroups(t, env.groups);
    if groups.None? {
      return None;
    }
    var ordinals := alloc.Commit(d);
    CursorAfter(d, actor, alloc.ordinal, actor);
    return Some(Pasted(made.nodeIds, made.rerouteIds, made.links, made.incoming, nets, groups.value, groupSeq,
      ordinals));
  }

  lemma AnswersAlike(lower: Name -> Id, d: Destination, copied: set<Id>, records: seq<NetRecord>, actions: seq<Action>)
    requires Answers(lower, d, copied, records, actions)
    ensures |actions| == |records|
  {
  }

  lemma LengthsOf(actor: Option<string>, start: nat, env: Envelope, nodeIds: seq<string>, rerouteIds: seq<string>)
    requires nodeIds == IdsFrom(NodePrefix, start, |NodeIds(env)|, actor)
    requires rerouteIds == IdsFrom(ReroutePrefix, start + |NodeIds(env)|, |env.reroutes|, actor)
    ensures |NodeIds(env)| == |env.nodes| == |nodeIds| && |rerouteIds| == |env.reroutes|
  {
  }

  lemma CopiesMatchPlan(env: Envelope, nodeIds: seq<string>, rerouteIds: seq<string>, start: nat, actor: Option<string>)
    requires |nodeIds| == |env.nodes| && |rerouteIds| == |env.reroutes|
    ensures |PastedCopies(Renaming(NodeIds(env), nodeIds), Renaming(env.reroutes, rerouteIds), env.links, start,
            actor)| == |Retained(env)|
  {
    RetainedIsRemapped(env, nodeIds, rerouteIds);
    CopiesCounted(Renaming(NodeIds(env), nodeIds), Renaming(env.reroutes, rerouteIds), env.links, start, actor);
  }

  lemma TargetsMatchPlan(env: Envelope, nodeIds: seq<string>, incoming: seq<Stub>)
    requires |nodeIds| == |env.nodes|
    ensures Filter(incoming, TargetsOf(Renaming(NodeIds(env), nodeIds))) == Filter(incoming, CopiedTargets(env))
  {
    RenamingKeys(NodeIds(env), nodeIds);
    hide Renaming;
    FilterSame(incoming, TargetsOf(Renaming(NodeIds(env), nodeIds)), CopiedTargets(env));
  }

  /**
   * Planning and then committing what the plan sends: a returned plan never fails, and predicts every
   * node and reroute id; a plan is refused only where the commit would fail.
   */
  method PlanThenPaste(d: Ordinals, actor: Option<string>, lower: Name -> Id, t: Target, env: Envelope,
                       resolves: Stub -> bool, accept: Stub -> bool, definitions: DefinitionPlanner,
                       connectInputs: bool)
    returns (plan: Option<Plan>, pasted: Option<Pasted>)
    requires SuffixesApart(lower)
    ensures plan.Some? ==>
            pasted.Some? && pasted.value.nodeIds == plan.value.nodeIds
              && pasted.value.rerouteIds == plan.value.rerouteIds
    ensures plan.Some? ==> plan.value.incoming == PlannedIncoming(t, env, resolves, accept, connectInputs)
    ensures plan.Some? ==> NewGroups(t, env.groups, |env.groups|, pasted.value.groups)
    ensures plan.None? && !NothingCopied(env) && ValidActor(actor) && SafeCursors(d, actor, t) ==> pasted.None?
  {
    var stubs := PlannedIncoming(t, env, resolves, accept, connectInputs);
    FitsAlike(d, actor, lower, t, env, resolves, accept, connectInputs, definitions);
    hide *;
    plan := PlanClipboardPaste(d, actor, lower, t, env, resolves, accept, definitions, connectInputs);
    var sent := Sent(env, stubs, connectInputs);
    var incoming := Revalidated(t, sent, resolves, connectInputs);
    pasted := Materialize(d, actor, lower, t, sent, incoming, definitions);
    if plan.Some? {
      IdsAlike(d, actor, lower, t, env, sent, incoming, definitions, pasted.value);
    }
  }

  /** What document validation says of the cursors. */
  predicate SafeCursors(d: Ordinals, actor: Option<string>, t: Target) {
    CursorOf(d, actor) <= MAX_SAFE_INTEGER && (t.groupSeq.Some? ==> t.groupSeq.value <= MAX_SAFE_INTEGER)
  }

  lemma FitsAlike(d: Ordinals, actor: Option<string>, lower: Name -> Id, t: Target, env: Envelope,
                  resolves: Stub -> bool, accept: Stub -> bool, connectInputs: bool, definitions: DefinitionPlanner)
    ensures var kept := PlannedIncoming(t, env, resolves, accept, connectInputs);
            var sent := Sent(env, kept, connectInputs);
            var incoming := Revalidated(t, sent, resolves, connectInputs);
            && sent.nodes == env.nodes && sent.reroutes == env.reroutes && sent.groups == env.groups
            && (Plannable(d, actor, lower, t, env, kept, definitions) ==>
               Pasteable(d, actor, lower, t, sent, incoming, definitions))
            && (!NothingCopied(env) && ValidActor(actor) && SafeCursors(d, actor, t) ==>
                  (Pasteable(d, actor, lower, t, sent, incoming, definitions) ==>
                     Plannable(d, actor, lower, t, env, kept, definitions)))
  {
    var kept := PlannedIncoming(t, env, resolves, accept, connectInputs);
    SentAlike(env, kept, connectInputs);
    if definitions(CopiedOf(env)).Some? {
      SentCountsAlike(lower, t, env, resolves, accept, connectInputs, definitions(CopiedOf(env)).value);
    }
    hide Sent;
    hide Revalidated;
    hide PlannedIncoming;
    hide Mints;
    hide Committed;
    hide Created;
    hide CopiedOf;
    hide GroupKeys;
    hide ParseGroupKey;
    hide CursorOf;
  }

  lemma IdsAlike(d: Ordinals, actor: Option<string>, lower: Name -> Id, t: Target, env: Envelope, sent: Envelope,
                 incoming: seq<Stub>, definitions: DefinitionPlanner, made: Pasted)
    requires sent.nodes == env.nodes && sent.reroutes == env.reroutes && sent.groups == env.groups
    requires Pasteable(d, actor, lower, t, sent, incoming, definitions)
             && PastedAs(d, actor, lower, t, sent, incoming, definitions, made)
    ensures made.nodeIds == IdsFrom(NodePrefix, CursorOf(d, actor), |env.nodes|, actor)
    ensures made.rerouteIds == IdsFrom(ReroutePrefix, CursorOf(d, actor) + |env.nodes|, |env.reroutes|, actor)
    ensures NewGroups(t, env.groups, |env.groups|, made.groups)
  {
    hide IdsFrom;
    hide CursorOf;
    hide NewGroups;
    hide Pasteable;
  }

  lemma SentAlike(env: Envelope, kept: seq<Stub>, connectInputs: bool)
    ensures var sent := Sent(env, kept, connectInputs);
            sent.nodes == env.nodes && sent.reroutes == env.reroutes && sent.groups == env.groups
              && CopiedOf(sent) == CopiedOf(env)
  {
  }

  /** The envelope a plan sends: with inputs to rewire it carries only the stubs kept. */
  function Sent(env: Envelope, kept: seq<Stub>, connectInputs: bool): Envelope {
    if connectInputs && env.version >= 2 then env.(externalIncoming := kept) else env
  }

  function Revalidated(t: Target, sent: Envelope, resolves: Stub -> bool, connectInputs: bool): seq<Stub> {
    if connectInputs then ValidExternalIncoming(t, sent, resolves, AcceptAll()) else []
  }

  /** What is sent commits exactly the mints that were planned, net records included. */
  lemma SentCountsAlike(lower: Name -> Id, t: Target, env: Envelope, resolves: Stub -> bool, accept: Stub -> bool,
                        connectInputs: bool, ids: map<Id, Id>)
    ensures var kept := PlannedIncoming(t, env, resolves, accept, connectInputs);
            var sent, created := Sent(env, kept, connectInputs), Created(lower, t, env, ids);
            && Created(lower, t, sent, ids) == created
            && Revalidated(t, sent, resolves, connectInputs) == kept
               && Committed(sent, kept, created) == Mints(env, kept, created)
            && (Mints(env, kept, created) == 0 ==> env.nodes == [] && env.reroutes == [])
  {
    var kept := PlannedIncoming(t, env, resolves, accept, connectInputs);
    var sent := Sent(env, kept, connectInputs);
    IncomingIdempotent(t, env, resolves, accept);
    TargetsCopied(t, env, resolves, accept);
    assert NodeIds(sent) == NodeIds(env) && NodeIdSet(sent) == NodeIdSet(env)
      && NetRecords(sent, ids) == NetRecords(env, ids);
    FilterSame(env.links, RetainedOf(sent), RetainedOf(env));
    FilterKeepsAll(kept, CopiedTargets(sent));
    hide Filter;
    hide ValidStub;
    hide CreatedNets;
  }

  lemma TargetsCopied(t: Target, env: Envelope, resolves: Stub -> bool, accept: Stub -> bool)
    ensures forall s :: s in ValidExternalIncoming(t, env, resolves, accept) ==> s.target.node in NodeIds(env)
  {
    forall s | s in ValidExternalIncoming(t, env, resolves, accept)
      ensures s.target.node in NodeIds(env)
    {
      assert TargetTyped(env, s.target.node, s.targetType);
      var k :| 0 <= k < |env.nodes| && env.nodes[k] == NodeItem(s.target.node, s.targetType);
      assert NodeIds(env)[k] == s.target.node;
    }
  }

  // ---------------------------------------------------------------------
  // The pasted topology is the copied one

  /** Distinct minted ids give distinct copies to distinct endpoints. */
  lemma RemapInjective(env: Envelope, nodeIds: seq<string>, rerouteIds: seq<string>, a: LinkEndpoint, b: LinkEndpoint)
    requires Normalized(env) && |nodeIds| == |env.nodes| && |rerouteIds| == |env.reroutes| && Distinct(nodeIds)
             && Distinct(rerouteIds)
    requires var nodeMap, rerouteMap := Renaming(NodeIds(env), nodeIds), Renaming(env.reroutes, rerouteIds);
             RemapEnd(nodeMap, rerouteMap, a).Some?
               && RemapEnd(nodeMap, rerouteMap, a) == RemapEnd(nodeMap, rerouteMap, b)
    ensures a == b
  {
    RenamingKeys(NodeIds(env), nodeIds);
    RenamingKeys(env.reroutes, rerouteIds);
    RenamingInjective(NodeIds(env), nodeIds);
    RenamingInjective(env.reroutes, rerouteIds);
    hide Renaming;
  }

  lemma RenamingInjective(sources: seq<Id>, ids: seq<string>)
    requires |sources| == |ids| && Distinct(sources) && Distinct(ids)
    ensures var names := Renaming(sources, ids);
            forall x, y :: x in names && y in names && names[x] == names[y] ==> x == y
  {
    RenamingKeys(sources, ids);
    forall x, y | x in Renaming(sources, ids) && y in Renaming(sources, ids)
      && Renaming(sources, ids)[x] == Renaming(sources, ids)[y]
      ensures x == y
    {
      var i :| 0 <= i < |sources| && sources[i] == x;
      var j :| 0 <= j < |sources| && sources[j] == y;
      RenamingAt(sources, ids, i);
      RenamingAt(sources, ids, j);
    }
  }

  /** The copy of an endpoint: the node or reroute renamed, its port, members or tap the same. */
  ghost predicate EndCopied(nodeMap: map<Id, string>, rerouteMap: map<Id, string>, e: LinkEndpoint, copy: PastedEnd) {
    match e
    case RerouteRef(r) => r in rerouteMap && copy == PastedReroute(rerouteMap[r])
    case WidgetTapRef(n, tap) => n in nodeMap && copy == PastedTap(nodeMap[n], tap)
    case PortEndpoint(ref) => ref.node in nodeMap && copy == PastedPort(nodeMap[ref.node], ref.port, ref.members)
    case _ => false
  }

  /** The k-th copy runs, under the k-th id, from the copy of where the k-th link runs from to the copy of its end. */
  ghost predicate Follow(nodeMap: map<Id, string>, rerouteMap: map<Id, string>, kept: seq<LinkData>,
                         copies: seq<PastedLink>, start: nat, actor: Option<string>)
  {
    |copies| == |kept| && forall k :: 0 <= k < |kept| ==>
      && copies[k].id == LinkId(start + k, actor)
      && EndCopied(nodeMap, rerouteMap, kept[k].from, copies[k].from)
      && EndCopied(nodeMap, rerouteMap, kept[k].to, copies[k].to)
  }

  lemma CopyJoins(nodeMap: map<Id, string>, rerouteMap: map<Id, string>, l: LinkData, id: string, copy: PastedLink)
    requires PastedCopy(nodeMap, rerouteMap, l, id) == [copy]
    ensures copy.id == id && EndCopied(nodeMap, rerouteMap, l.from, copy.from)
            && EndCopied(nodeMap, rerouteMap, l.to, copy.to)
  {
  }

  lemma FollowStep(nodeMap: map<Id, string>, rerouteMap: map<Id, string>, kept: seq<LinkData>, copies: seq<PastedLink>,
                   start: nat, actor: Option<string>, last: LinkData, copy: PastedLink)
    requires Follow(nodeMap, rerouteMap, kept, copies, start, actor)
    requires PastedCopy(nodeMap, rerouteMap, last, LinkId(start + |copies|, actor)) == [copy]
    ensures Follow(nodeMap, rerouteMap, kept + [last], copies + [copy], start, actor)
  {
    hide PastedCopy;
    hide LinkId;
    hide EndCopied;
    CopyJoins(nodeMap, rerouteMap, last, LinkId(start + |copies|, actor), copy);
  }

  /** The k-th pasted link joins the copies of what the k-th retained link joins. */
  lemma {:induction false} CopiesFollow(nodeMap: map<Id, string>, rerouteMap: map<Id, string>, links: seq<LinkData>,
                                        start: nat, actor: Option<string>)
    ensures Follow(nodeMap, rerouteMap, Filter(links, RemapsOf(nodeMap, rerouteMap)),
            PastedCopies(nodeMap, rerouteMap, links, start, actor), start, actor)
  {
    if links != [] {
      var front, last := links[..|links| - 1], links[|links| - 1];
      assert links == front + [last];
      FollowLast(nodeMap, rerouteMap, front, last, start, actor);
      CopiesFollow(nodeMap, rerouteMap, front, start, actor);
      var kept, copies := Filter(front, RemapsOf(nodeMap, rerouteMap)),
        PastedCopies(nodeMap, rerouteMap, front, start, actor);
      var copy := PastedCopy(nodeMap, rerouteMap, last, LinkId(start + |copies|, actor));
      hide *;
      if |copy| == 1 {
        FollowStep(nodeMap, rerouteMap, kept, copies, start, actor, last, copy[0]);
      } else {
        assert copies + copy == copies && kept + [] == kept;
      }
    }
  }

  /** The lists of kept links and of their copies grow side by side. */
  lemma FollowLast(nodeMap: map<Id, string>, rerouteMap: map<Id, string>, front: seq<LinkData>, last: LinkData,
                   start: nat, actor: Option<string>)
    ensures var kept, copies := Filter(front, RemapsOf(nodeMap, rerouteMap)),
            PastedCopies(nodeMap, rerouteMap, front, start, actor);
            var copy := PastedCopy(nodeMap, rerouteMap, last, LinkId(start + |copies|, actor));
            && |copies| == |kept| && PastedCopies(nodeMap, rerouteMap, front + [last], start, actor) == copies + copy
            && Filter(front + [last], RemapsOf(nodeMap, rerouteMap)) == kept + (if |copy| == 1 then [last] else [])
            && |copy| <= 1 && (|copy| == 1 ==> copy == [copy[0]])
  {
    FilterAppend(front, last, RemapsOf(nodeMap, rerouteMap));
    CopiesCounted(nodeMap, rerouteMap, front, start, actor);
    CopiesLast(nodeMap, rerouteMap, front, last, start, actor);
    CopySize(nodeMap, rerouteMap, last,
      LinkId(start + |PastedCopies(nodeMap, rerouteMap, front, start, actor)|, actor));
    assert RemapsOf(nodeMap, rerouteMap)(last) == Remaps(nodeMap, rerouteMap, last);
    hide *;
  }
}
