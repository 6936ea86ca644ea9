/**
 * What a committed paste looks like beside the copy it was made from: where its links run, and what
 * drives its inputs.
 */
module PasteLaws {
  import opened Identity
  import opened Ordered
  import opened AllocatedIds
  import opened Allocation
  import opened NetPastes
  import opened Reroute
  import opened ClipboardPlan

  // ---------------------------------------------------------------------
  // Copies

  ghost predicate NodeAt(env: Envelope, n: Id, i: int) {
    0 <= i < |env.nodes| && env.nodes[i].id == n
  }

  ghost predicate RerouteAt(env: Envelope, r: Id, i: int) {
    0 <= i < |env.reroutes| && env.reroutes[i] == r
  }

  /** A copied endpoint's copy, by its place in the envelope: only the node or reroute is another. */
  ghost predicate IsCopy(env: Envelope, nodeIds: seq<string>, rerouteIds: seq<string>, e: LinkEndpoint, copy: PastedEnd)
    requires |nodeIds| == |env.nodes| && |rerouteIds| == |env.reroutes|
  {
    match e
    case RerouteRef(r) => exists i :: RerouteAt(env, r, i) && copy == PastedReroute(rerouteIds[i])
    case WidgetTapRef(n, tap) => exists i :: NodeAt(env, n, i) && copy == PastedTap(nodeIds[i], tap)
    case PortEndpoint(ref) => exists i ::
      NodeAt(env, ref.node, i) && copy == PastedPort(nodeIds[i], ref.port, ref.members)
    case _ => false
  }

  /** An endpoint that the copy includes. */
  ghost predicate IsCopied(env: Envelope, e: LinkEndpoint) {
    match e
    case RerouteRef(r) => exists i :: RerouteAt(env, r, i)
    case WidgetTapRef(n, _) => exists i :: NodeAt(env, n, i)
    case PortEndpoint(ref) => exists i :: NodeAt(env, ref.node, i)
    case _ => false
  }

  lemma NodeIn(env: Envelope, n: Id)
    ensures n in NodeIds(env) <==> exists i :: NodeAt(env, n, i)
  {
    if n in NodeIds(env) {
      var i :| 0 <= i < |NodeIds(env)| && NodeIds(env)[i] == n;
      assert NodeAt(env, n, i);
    }
    if i :| NodeAt(env, n, i) {
      assert NodeIds(env)[i] == n;
    }
  }

  lemma RerouteIn(env: Envelope, r: Id)
    ensures r in env.reroutes <==> exists i :: RerouteAt(env, r, i)
  {
    if r in env.reroutes {
      var i :| 0 <= i < |env.reroutes| && env.reroutes[i] == r;
      assert RerouteAt(env, r, i);
    }
  }

  lemma SurvivesCopied(env: Envelope, e: LinkEndpoint)
    ensures Survives(env, e) <==> IsCopied(env, e)
  {
    hide NodeAt;
    hide RerouteAt;
    hide NodeIds;
    match e
    case RerouteRef(r) => RerouteIn(env, r);
    case WidgetTapRef(n, _) => NodeIn(env, n);
    case PortEndpoint(ref) => NodeIn(env, ref.node);
    case _ =>
  }

  /** The retained links are those of the envelope with both ends copied. */
  lemma RetainedExactly(env: Envelope, l: LinkData)
    ensures l in Retained(env) <==> l in env.links && IsCopied(env, l.from) && IsCopied(env, l.to)
  {
    SurvivesCopied(env, l.from);
    SurvivesCopied(env, l.to);
    hide IsCopied;
    hide Survives;
    assert RetainedOf(env)(l) <==> Survives(env, l.from) && Survives(env, l.to);
  }

  /** The renamed copy is the copy by place. */
  lemma CopyByPlace(env: Envelope, nodeIds: seq<string>, rerouteIds: seq<string>, e: LinkEndpoint, copy: PastedEnd)
    requires Normalized(env) && |nodeIds| == |env.nodes| && |rerouteIds| == |env.reroutes|
    ensures EndCopied(Renaming(NodeIds(env), nodeIds), Renaming(env.reroutes, rerouteIds), e, copy) <==>
              IsCopy(env, nodeIds, rerouteIds, e, copy)
  {
    hide Renaming;
    hide NodeIds;
    hide Distinct;
    match e
    case RerouteRef(r) => NamedReroute(env, rerouteIds, r);
    case WidgetTapRef(n, _) => NamedNode(env, nodeIds, n);
    case PortEndpoint(ref) => NamedNode(env, nodeIds, ref.node);
    case _ =>
  }

  lemma NamedNode(env: Envelope, nodeIds: seq<string>, n: Id)
    requires Normalized(env) && |nodeIds| == |env.nodes|
    ensures n in Renaming(NodeIds(env), nodeIds) <==> exists i :: NodeAt(env, n, i)
    ensures forall i :: NodeAt(env, n, i) ==>
              n in Renaming(NodeIds(env), nodeIds) && Renaming(NodeIds(env), nodeIds)[n] == nodeIds[i]
  {
    hide Renaming;
    hide Distinct;
    RenamingKeys(NodeIds(env), nodeIds);
    NodeIn(env, n);
    forall i | NodeAt(env, n, i)
      ensures n in Renaming(NodeIds(env), nodeIds) && Renaming(NodeIds(env), nodeIds)[n] == nodeIds[i]
    {
      RenamingAt(NodeIds(env), nodeIds, i);
    }
  }

  lemma NamedReroute(env: Envelope, rerouteIds: seq<string>, r: Id)
    requires Normalized(env) && |rerouteIds| == |env.reroutes|
    ensures r in Renaming(env.reroutes, rerouteIds) <==> exists i :: RerouteAt(env, r, i)
    ensures forall i :: RerouteAt(env, r, i) ==>
              r in Renaming(env.reroutes, rerouteIds) && Renaming(env.reroutes, rerouteIds)[r] == rerouteIds[i]
  {
    hide Renaming;
    hide Distinct;
    RenamingKeys(env.reroutes, rerouteIds);
    RerouteIn(env, r);
    forall i | RerouteAt(env, r, i)
      ensures r in Renaming(env.reroutes, rerouteIds) && Renaming(env.reroutes, rerouteIds)[r] == rerouteIds[i]
    {
      RenamingAt(env.reroutes, rerouteIds, i);
    }
  }

  // ---------------------------------------------------------------------
  // Links

  /** The `k`-th pasted link runs, under the next id, from copy to copy as the `k`-th retained link runs. */
  ghost predicate Joins(env: Envelope, made: Pasted, start: nat, actor: Option<string>)
    requires |made.nodeIds| == |env.nodes| && |made.rerouteIds| == |env.reroutes|
  {
    && |made.links| == |Retained(env)|
    && forall k :: 0 <= k < |made.links| ==>
         && made.links[k].id == FormatAllocatedId("l", start + |env.nodes| + |env.reroutes| + k, actor)
         && IsCopy(env, made.nodeIds, made.rerouteIds, Retained(env)[k].from, made.links[k].from)
         && IsCopy(env, made.nodeIds, made.rerouteIds, Retained(env)[k].to, made.links[k].to)
  }

  lemma PastedLinksJoin(d: Ordinals, actor: Option<string>, lower: Name -> Id, t: Target, env: Envelope,
                        incoming: seq<Stub>, definitions: DefinitionPlanner, made: Pasted)
    requires Normalized(env) && Pasteable(d, actor, lower, t, env, incoming, definitions)
    requires PastedAs(d, actor, lower, t, env, incoming, definitions, made)
    ensures |made.nodeIds| == |env.nodes| && |made.rerouteIds| == |env.reroutes|
    ensures Joins(env, made, CursorOf(d, actor), actor)
  {
    hide *;
    PastedLinks(d, actor, lower, t, env, incoming, definitions, made);
    var nodeMap, rerouteMap := Renaming(NodeIds(env), made.nodeIds), Renaming(env.reroutes, made.rerouteIds);
    var start := CursorOf(d, actor) + |env.nodes| + |env.reroutes|;
    RetainedIsRemapped(env, made.nodeIds, made.rerouteIds);
    CopiesFollow(nodeMap, rerouteMap, env.links, start, actor);
    FollowJoins(env, made, CursorOf(d, actor), actor);
  }

  lemma PastedLinks(d: Ordinals, actor: Option<string>, lower: Name -> Id, t: Target, env: Envelope,
                    incoming: seq<Stub>, definitions: DefinitionPlanner, made: Pasted)
    requires Pasteable(d, actor, lower, t, env, incoming, definitions)
    requires PastedAs(d, actor, lower, t, env, incoming, definitions, made)
    ensures |NodeIds(env)| == |made.nodeIds| == |env.nodes| && |made.rerouteIds| == |env.reroutes|
    ensures made.links == PastedCopies(Renaming(NodeIds(env), made.nodeIds), Renaming(env.reroutes, made.rerouteIds),
                                       env.links, CursorOf(d, actor) + |env.nodes| + |env.reroutes|, actor)
    ensures RewiredAs(Renaming(NodeIds(env), made.nodeIds), Filter(incoming, CopiedTargets(env)),
                      CursorOf(d, actor) + |env.nodes| + |env.reroutes| + |made.links|, actor, made.incoming)
    ensures Distinct(AllSinks(made.nets)) && forall e ::
            e in AllSinks(made.nets) ==> e !in Driven(made.links, made.incoming)
    ensures made.nodeIds == IdsFrom(NodePrefix, CursorOf(d, actor), |env.nodes|, actor)
  {
    hide IdsFrom;
    hide CursorOf;
    hide NewGroups;
    hide Pasteable;
    hide NetsAnswer;
    hide Driven;
    hide AllSinks;
    hide PastedCopies;
    hide RewiredAs;
    hide Renaming;
    hide Filter;
  }

  lemma FollowJoins(env: Envelope, made: Pasted, start: nat, actor: Option<string>)
    requires Normalized(env) && |NodeIds(env)| == |made.nodeIds| == |env.nodes| && |made.rerouteIds| == |env.reroutes|
    requires Follow(Renaming(NodeIds(env), made.nodeIds), Renaming(env.reroutes, made.rerouteIds), Retained(env),
                    made.links, start + |env.nodes| + |env.reroutes|, actor)
    ensures Joins(env, made, start, actor)
  {
    hide Retained;
    hide EndCopied;
    hide IsCopy;
    hide Renaming;
    hide NodeIds;
    hide FormatAllocatedId;
    hide Normalized;
    forall k | 0 <= k < |made.links|
      ensures IsCopy(env, made.nodeIds, made.rerouteIds, Retained(env)[k].from, made.links[k].from)
      ensures IsCopy(env, made.nodeIds, made.rerouteIds, Retained(env)[k].to, made.links[k].to)
    {
      CopyByPlace(env, made.nodeIds, made.rerouteIds, Retained(env)[k].from, made.links[k].from);
      CopyByPlace(env, made.nodeIds, made.rerouteIds, Retained(env)[k].to, made.links[k].to);
    }
  }

  // ---------------------------------------------------------------------
  // Rewired inputs

  /** A stub whose target was copied, and the link that wires the copy of that input to its source. */
  ghost predicate WiresTo(env: Envelope, made: Pasted, s: Stub, link: RewiredLink)
    requires |made.nodeIds| == |env.nodes| && |made.rerouteIds| == |env.reroutes|
  {
    && link.source == s.source && link.body == s.body
    && IsCopy(env, made.nodeIds, made.rerouteIds, PortEndpoint(s.target), link.to)
  }

  /**
   * The links of rewired inputs, one after the other under the next ids, for exactly the stubs
   * whose target was copied.
   */
  lemma RewiredInputs(d: Ordinals, actor: Option<string>, lower: Name -> Id, t: Target, env: Envelope,
                      incoming: seq<Stub>, definitions: DefinitionPlanner, made: Pasted)
    requires Normalized(env) && Pasteable(d, actor, lower, t, env, incoming, definitions)
    requires PastedAs(d, actor, lower, t, env, incoming, definitions, made)
    ensures |made.nodeIds| == |env.nodes| && |made.rerouteIds| == |env.reroutes|
    ensures var stubs := Filter(incoming, CopiedTargets(env));
            && |made.incoming| == |stubs|
            && (forall s :: s in stubs <==> s in incoming && IsCopied(env, PortEndpoint(s.target)))
            && forall k :: 0 <= k < |stubs| ==>
                 && made.incoming[k].id ==
                    FormatAllocatedId("l", CursorOf(d, actor) + |env.nodes| + |env.reroutes| + |made.links| + k, actor)
                 && WiresTo(env, made, stubs[k], made.incoming[k])
  {
    hide *;
    PastedLinks(d, actor, lower, t, env, incoming, definitions, made);
    StubsCopied(env, incoming);
    RewiredWires(env, made, Filter(incoming, CopiedTargets(env)),
                 CursorOf(d, actor) + |env.nodes| + |env.reroutes| + |made.links|, actor);
  }

  lemma StubsCopied(env: Envelope, incoming: seq<Stub>)
    ensures forall s ::
            s in Filter(incoming, CopiedTargets(env)) <==> s in incoming && IsCopied(env, PortEndpoint(s.target))
  {
    hide NodeIds;
    forall s: Stub
      ensures CopiedTargets(env)(s) <==> IsCopied(env, PortEndpoint(s.target))
    {
      NodeIn(env, s.target.node);
    }
    hide IsCopied;
    hide CopiedTargets;
  }

  lemma RewiredWires(env: Envelope, made: Pasted, stubs: seq<Stub>, start: nat, actor: Option<string>)
    requires Normalized(env) && |NodeIds(env)| == |made.nodeIds| == |env.nodes| && |made.rerouteIds| == |env.reroutes|
    requires RewiredAs(Renaming(NodeIds(env), made.nodeIds), stubs, start, actor, made.incoming)
    ensures |made.incoming| == |stubs|
    ensures forall k :: 0 <= k < |stubs| ==>
              made.incoming[k].id == FormatAllocatedId("l", start + k, actor)
                && WiresTo(env, made, stubs[k], made.incoming[k])
  {
    hide IsCopy;
    hide Renaming;
    hide NodeIds;
    hide FormatAllocatedId;
    hide Normalized;
    var nodeMap := Renaming(NodeIds(env), made.nodeIds);
    forall k | 0 <= k < |stubs|
      ensures WiresTo(env, made, stubs[k], made.incoming[k])
    {
      CopyByPlace(env, made.nodeIds, made.rerouteIds, PortEndpoint(stubs[k].target), made.incoming[k].to);
    }
  }

  // ---------------------------------------------------------------------
  // What drives an input

  lemma IdsApart(start: nat, n: nat, actor: Option<string>)
    requires ValidActor(actor) && (n == 0 || start + n <= MAX_SAFE_INTEGER)
    ensures Distinct(IdsFrom(NodePrefix, start, n, actor))
  {
    var ids := IdsFrom(NodePrefix, start, n, actor);
    forall i, j | 0 <= i < j < n
      ensures ids[i] != ids[j]
    {
      if ids[i] == ids[j] {
        FormatInjective(ParsedId(Text(NodePrefix), start + i, actor), ParsedId(Text(NodePrefix), start + j, actor));
      }
    }
  }

  lemma NodesFit(d: Ordinals, actor: Option<string>, lower: Name -> Id, t: Target, env: Envelope,
                 incoming: seq<Stub>, definitions: DefinitionPlanner)
    requires Pasteable(d, actor, lower, t, env, incoming, definitions)
    ensures |env.nodes| == 0 || CursorOf(d, actor) + |env.nodes| <= MAX_SAFE_INTEGER
  {
    hide CursorOf;
    hide Created;
    hide Retained;
    hide Filter;
  }

  lemma SameCopy(env: Envelope, nodeIds: seq<string>, rerouteIds: seq<string>, a: PortRef, e: LinkEndpoint,
                 copy: PastedEnd)
    requires |nodeIds| == |env.nodes| && |rerouteIds| == |env.reroutes| && Distinct(nodeIds)
    requires IsCopy(env, nodeIds, rerouteIds, PortEndpoint(a), copy) && IsCopy(env, nodeIds, rerouteIds, e, copy)
    ensures e == PortEndpoint(a)
  {
  }

  /**
   * The copy of an input is driven exactly by a copied link into the original, or by a stub that
   * names it.
   */
  lemma DrivenExactly(d: Ordinals, actor: Option<string>, lower: Name -> Id, t: Target, env: Envelope,
                      incoming: seq<Stub>, definitions: DefinitionPlanner, made: Pasted, input: PortRef,
                      copy: PastedEnd)
    requires Normalized(env) && ValidActor(actor) && Pasteable(d, actor, lower, t, env, incoming, definitions)
    requires PastedAs(d, actor, lower, t, env, incoming, definitions, made)
    requires |made.nodeIds| == |env.nodes| && |made.rerouteIds| == |env.reroutes|
    requires IsCopy(env, made.nodeIds, made.rerouteIds, PortEndpoint(input), copy)
    ensures copy in Driven(made.links, made.incoming) <==>
              || (exists l ::
                 l in env.links && IsCopied(env, l.from) && IsCopied(env, l.to) && l.to == PortEndpoint(input))
              || (exists s :: s in incoming && s.target == input)
  {
    hide *;
    PastedLinksJoin(d, actor, lower, t, env, incoming, definitions, made);
    RewiredInputs(d, actor, lower, t, env, incoming, definitions, made);
    PastedLinks(d, actor, lower, t, env, incoming, definitions, made);
    NodesFit(d, actor, lower, t, env, incoming, definitions);
    IdsApart(CursorOf(d, actor), |env.nodes|, actor);
    DrivenByLinks(env, made, CursorOf(d, actor), actor, input, copy);
    DrivenByStubs(env, made, Filter(incoming, CopiedTargets(env)), input, copy);
    CopyIsCopied(env, made.nodeIds, made.rerouteIds, PortEndpoint(input), copy);
    DrivenIs(made.links, made.incoming, copy);
    if s :| s in incoming && s.target == input {
      assert s in Filter(incoming, CopiedTargets(env));
    }
  }

  lemma CopyIsCopied(env: Envelope, nodeIds: seq<string>, rerouteIds: seq<string>, e: LinkEndpoint, copy: PastedEnd)
    requires |nodeIds| == |env.nodes| && |rerouteIds| == |env.reroutes| && IsCopy(env, nodeIds, rerouteIds, e, copy)
    ensures IsCopied(env, e)
    ensures e.PortEndpoint? ==> copy.PastedPort?
  {
    hide NodeAt;
    hide RerouteAt;
  }

  lemma DrivenIs(links: seq<PastedLink>, incoming: seq<RewiredLink>, copy: PastedEnd)
    requires copy.PastedPort?
    ensures copy in Driven(links, incoming) <==>
              || (exists k :: 0 <= k < |links| && links[k].to == copy)
              || (exists k :: 0 <= k < |incoming| && incoming[k].to == copy)
  {
    if k :| 0 <= k < |links| && links[k].to == copy {
      assert links[k] in links;
    }
    if k :| 0 <= k < |incoming| && incoming[k].to == copy {
      assert incoming[k] in incoming;
    }
  }

  lemma DrivenByLinks(env: Envelope, made: Pasted, start: nat, actor: Option<string>, input: PortRef, copy: PastedEnd)
    requires |made.nodeIds| == |env.nodes| && |made.rerouteIds| == |env.reroutes| && Distinct(made.nodeIds)
    requires Normalized(env) && Joins(env, made, start, actor)
    requires IsCopy(env, made.nodeIds, made.rerouteIds, PortEndpoint(input), copy)
    ensures (exists k :: 0 <= k < |made.links| && made.links[k].to == copy) <==>
              exists l :: l in env.links && IsCopied(env, l.from) && IsCopied(env, l.to) && l.to == PortEndpoint(input)
  {
    hide IsCopy;
    hide IsCopied;
    hide Distinct;
    hide Retained;
    hide FormatAllocatedId;
    if k :| 0 <= k < |made.links| && made.links[k].to == copy {
      var l := Retained(env)[k];
      assert l in Retained(env);
      RetainedExactly(env, l);
      SameCopy(env, made.nodeIds, made.rerouteIds, input, l.to, copy);
    }
    if l :| l in env.links && IsCopied(env, l.from) && IsCopied(env, l.to) && l.to == PortEndpoint(input) {
      RetainedExactly(env, l);
      var k :| 0 <= k < |Retained(env)| && Retained(env)[k] == l;
      OneCopy(env, made.nodeIds, made.rerouteIds, l.to, copy, made.links[k].to);
    }
  }

  lemma OneCopy(env: Envelope, nodeIds: seq<string>, rerouteIds: seq<string>, e: LinkEndpoint, a: PastedEnd,
                b: PastedEnd)
    requires |nodeIds| == |env.nodes| && |rerouteIds| == |env.reroutes| && Normalized(env)
    requires IsCopy(env, nodeIds, rerouteIds, e, a) && IsCopy(env, nodeIds, rerouteIds, e, b)
    ensures a == b
  {
    hide Renaming;
    hide IsCopy;
    CopyByPlace(env, nodeIds, rerouteIds, e, a);
    CopyByPlace(env, nodeIds, rerouteIds, e, b);
  }

  lemma DrivenByStubs(env: Envelope, made: Pasted, stubs: seq<Stub>, input: PortRef, copy: PastedEnd)
    requires |made.nodeIds| == |env.nodes| && |made.rerouteIds| == |env.reroutes| && Distinct(made.nodeIds)
    requires Normalized(env) && IsCopy(env, made.nodeIds, made.rerouteIds, PortEndpoint(input), copy)
    requires |made.incoming| == |stubs|
    requires forall k :: 0 <= k < |stubs| ==> WiresTo(env, made, stubs[k], made.incoming[k])
    ensures (exists k :: 0 <= k < |made.incoming| && made.incoming[k].to == copy) <==>
              exists s :: s in stubs && s.target == input
  {
    hide IsCopy;
    hide Distinct;
    if k :| 0 <= k < |made.incoming| && made.incoming[k].to == copy {
      SameCopy(env, made.nodeIds, made.rerouteIds, input, PortEndpoint(stubs[k].target), copy);
      assert stubs[k] in stubs;
    }
    if s :| s in stubs && s.target == input {
      var k :| 0 <= k < |stubs| && stubs[k] == s;
      OneCopy(env, made.nodeIds, made.rerouteIds, PortEndpoint(input), copy, made.incoming[k].to);
    }
  }

  // ---------------------------------------------------------------------
  // One driver for each pasted input

  /** The inputs that the pasted links drive, in order. */
  ghost function LinkEnds(links: seq<PastedLink>): seq<PastedEnd> {
    if links == [] then []
    else
      var last := links[|links| - 1];
      LinkEnds(links[..|links| - 1]) + if last.to.PastedPort? then [last.to] else []
  }

  ghost function StubEnds(incoming: seq<RewiredLink>): seq<PastedEnd> {
    seq(|incoming|, k requires 0 <= k < |incoming| => incoming[k].to)
  }

  ghost predicate EndsApart(links: seq<PastedLink>) {
    forall i, j :: 0 <= i < j < |links| && links[i].to.PastedPort? ==> links[i].to != links[j].to
  }

  lemma {:induction false} LinkEndsApart(links: seq<PastedLink>)
    ensures forall e :: e in LinkEnds(links) <==> e.PastedPort? && exists k :: 0 <= k < |links| && links[k].to == e
    ensures EndsApart(links) ==> Distinct(LinkEnds(links))
  {
    if links != [] {
      var front, last := links[..|links| - 1], links[|links| - 1];
      LinkEndsApart(front);
      assert forall k :: 0 <= k < |front| ==> front[k] == links[k];
      assert links[|links| - 1] == last;
      forall e
        ensures e in LinkEnds(links) <==> e.PastedPort? && exists k :: 0 <= k < |links| && links[k].to == e
      {
        if k :| 0 <= k < |links| && links[k].to == e && e.PastedPort? {
          assert k < |front| ==> front[k].to == e;
        }
      }
      if EndsApart(links) {
        assert EndsApart(front);
        assert last.to.PastedPort? ==> last.to !in LinkEnds(front);
      }
    }
  }

  lemma {:induction false} FilterNth<T(!new)>(xs: seq<T>, keep: T -> bool, i: nat, j: nat) returns (a: nat, b: nat)
    requires i < j < |Filter(xs, keep)|
    ensures a < b < |xs| && xs[a] == Filter(xs, keep)[i] && xs[b] == Filter(xs, keep)[j]
  {
    assert Filter(xs, keep) == (if keep(xs[0]) then [xs[0]] else []) + Filter(xs[1..], keep);
    hide Filter;
    if keep(xs[0]) && i == 0 {
      assert Filter(xs[1..], keep)[j - 1] in xs[1..];
      var c :| 0 <= c < |xs[1..]| && xs[1..][c] == Filter(xs[1..], keep)[j - 1];
      return 0, c + 1;
    }
    var skipped := if keep(xs[0]) then 1 else 0;
    a, b := FilterNth(xs[1..], keep, i - skipped, j - skipped);
    a, b := a + 1, b + 1;
  }

  /** No two links of the copy end in one input, as document validation has it. */
  ghost predicate SingleDrivers(env: Envelope) {
    forall a, b :: 0 <= a < b < |env.links| && env.links[a].to.PortEndpoint? ==> env.links[a].to != env.links[b].to
  }

  lemma PastedEndsApart(env: Envelope, made: Pasted, start: nat, actor: Option<string>)
    requires |made.nodeIds| == |env.nodes| && |made.rerouteIds| == |env.reroutes| && Distinct(made.nodeIds)
    requires Normalized(env) && SingleDrivers(env) && Joins(env, made, start, actor)
    ensures EndsApart(made.links)
  {
    hide IsCopy;
    hide Distinct;
    hide Normalized;
    hide FormatAllocatedId;
    forall i, j | 0 <= i < j < |made.links| && made.links[i].to.PastedPort?
      ensures made.links[i].to != made.links[j].to
    {
      var l, m := Retained(env)[i], Retained(env)[j];
      var a, b := FilterNth(env.links, RetainedOf(env), i, j);
      EndIsPort(env, made.nodeIds, made.rerouteIds, l.to, made.links[i].to);
      if made.links[i].to == made.links[j].to {
        SameCopy(env, made.nodeIds, made.rerouteIds, l.to.ref, m.to, made.links[i].to);
      }
    }
  }

  lemma EndIsPort(env: Envelope, nodeIds: seq<string>, rerouteIds: seq<string>, e: LinkEndpoint, copy: PastedEnd)
    requires |nodeIds| == |env.nodes| && |rerouteIds| == |env.reroutes| && IsCopy(env, nodeIds, rerouteIds, e, copy)
    ensures copy.PastedPort? <==> e.PortEndpoint?
  {
    hide NodeAt;
    hide RerouteAt;
  }

  /** What a paste validates before it rewires. */
  ghost predicate StubsFree(env: Envelope, stubs: seq<Stub>) {
    && (forall i, j :: 0 <= i < j < |stubs| ==> stubs[i].target != stubs[j].target)
    && (forall s, l :: s in stubs && l in env.links ==> l.to != PortEndpoint(s.target))
  }

  lemma StubEndsApart(env: Envelope, made: Pasted, stubs: seq<Stub>)
    requires |made.nodeIds| == |env.nodes| && |made.rerouteIds| == |env.reroutes| && Distinct(made.nodeIds)
    requires |made.incoming| == |stubs| && StubsFree(env, stubs)
    requires forall k :: 0 <= k < |stubs| ==> WiresTo(env, made, stubs[k], made.incoming[k])
    ensures Distinct(StubEnds(made.incoming))
  {
    hide IsCopy;
    forall i, j | 0 <= i < j < |stubs|
      ensures made.incoming[i].to != made.incoming[j].to
    {
      if made.incoming[i].to == made.incoming[j].to {
        SameCopy(env, made.nodeIds, made.rerouteIds, stubs[i].target, PortEndpoint(stubs[j].target),
          made.incoming[i].to);
      }
    }
  }

  lemma StubsOffLinks(env: Envelope, made: Pasted, stubs: seq<Stub>, start: nat, actor: Option<string>)
    requires |made.nodeIds| == |env.nodes| && |made.rerouteIds| == |env.reroutes| && Distinct(made.nodeIds)
    requires Joins(env, made, start, actor) && |made.incoming| == |stubs| && StubsFree(env, stubs)
    requires forall k :: 0 <= k < |stubs| ==> WiresTo(env, made, stubs[k], made.incoming[k])
    ensures forall i, k :: 0 <= i < |made.links| && 0 <= k < |stubs| ==> made.links[i].to != made.incoming[k].to
  {
    hide IsCopy;
    hide Distinct;
    hide Retained;
    hide FormatAllocatedId;
    forall i, k | 0 <= i < |made.links| && 0 <= k < |stubs|
      ensures made.links[i].to != made.incoming[k].to
    {
      var l := Retained(env)[i];
      assert l in Retained(env) && stubs[k] in stubs;
      RetainedExactly(env, l);
      if made.links[i].to == made.incoming[k].to {
        SameCopy(env, made.nodeIds, made.rerouteIds, stubs[k].target, l.to, made.links[i].to);
      }
    }
  }

  lemma ThreeApart(a: seq<PastedEnd>, b: seq<PastedEnd>, c: seq<PastedEnd>)
    requires Distinct(a) && Distinct(b) && Distinct(c)
    requires forall e :: e in b ==> e !in a
    requires forall e :: e in c ==> e !in a && e !in b
    ensures Distinct(a + b + c)
  {
    forall i, j | 0 <= i < j < |a + b + c|
      ensures (a + b + c)[i] != (a + b + c)[j]
    {
      var x, y := (a + b + c)[i], (a + b + c)[j];
      assert i < |a| ==> x in a;
      assert |a| <= i < |a| + |b| ==> x in b;
      assert |a| <= j < |a| + |b| ==> y in b;
      assert |a| + |b| <= j ==> y in c;
    }
  }

  lemma EndsApartFrom(made: Pasted, stubs: seq<Stub>)
    requires |made.incoming| == |stubs|
    requires forall e :: e in LinkEnds(made.links) <==> e.PastedPort? && exists k ::
             0 <= k < |made.links| && made.links[k].to == e
    requires forall i, k :: 0 <= i < |made.links| && 0 <= k < |stubs| ==> made.links[i].to != made.incoming[k].to
    requires forall e :: e in AllSinks(made.nets) ==> e !in Driven(made.links, made.incoming)
    ensures forall e :: e in StubEnds(made.incoming) ==> e !in LinkEnds(made.links)
    ensures forall e :: e in AllSinks(made.nets) ==> e !in LinkEnds(made.links) && e !in StubEnds(made.incoming)
  {
    hide LinkEnds;
    hide AllSinks;
    assert forall k :: 0 <= k < |made.links| ==> made.links[k] in made.links;
    assert forall k ::
      0 <= k < |made.incoming| ==>
        made.incoming[k] in made.incoming && StubEnds(made.incoming)[k] == made.incoming[k].to;
  }

  // ---------------------------------------------------------------------
  // Which stubs are kept

  ghost predicate NamesAt(stubs: seq<Stub>, target: PortRef, i: int) {
    0 <= i < |stubs| && stubs[i].target == target
  }

  lemma {:induction false} CountsOnce(stubs: seq<Stub>, i: nat)
    requires i < |stubs|
    ensures CountAt(stubs, stubs[i].target) == 1 <==> forall j :: NamesAt(stubs, stubs[i].target, j) ==> j == i
  {
    var target := stubs[i].target;
    if i == 0 {
      CountsNone(stubs[1..], target);
      assert forall j :: j > 0 ==> (NamesAt(stubs, target, j) <==> NamesAt(stubs[1..], target, j - 1));
      if j :| NamesAt(stubs[1..], target, j) {
        assert NamesAt(stubs, target, j + 1);
      }
    } else {
      CountsOnce(stubs[1..], i - 1);
      assert stubs[1..][i - 1] == stubs[i];
      assert forall j :: j > 0 ==> (NamesAt(stubs, target, j) <==> NamesAt(stubs[1..], target, j - 1));
      assert NamesAt(stubs, target, 0) <==> stubs[0].target == target;
      assert NamesAt(stubs[1..], target, i - 1);
      CountsSome(stubs[1..], i - 1);
      if forall j :: NamesAt(stubs[1..], target, j) ==> j == i - 1 {
        assert forall j :: j > 0 && NamesAt(stubs, target, j) ==> j == i;
      } else {
        var j :| NamesAt(stubs[1..], target, j) && j != i - 1;
        assert NamesAt(stubs, target, j + 1);
      }
    }
  }

  lemma {:induction false} CountsNone(stubs: seq<Stub>, target: PortRef)
    ensures CountAt(stubs, target) == 0 <==> forall j :: !NamesAt(stubs, target, j)
  {
    if stubs != [] {
      CountsNone(stubs[1..], target);
      assert forall j :: j > 0 ==> (NamesAt(stubs, target, j) <==> NamesAt(stubs[1..], target, j - 1));
      assert NamesAt(stubs, target, 0) <==> stubs[0].target == target;
      if j :| NamesAt(stubs[1..], target, j) {
        assert NamesAt(stubs, target, j + 1);
      }
    }
  }

  lemma CountsSome(stubs: seq<Stub>, i: nat)
    requires i < |stubs|
    ensures CountAt(stubs, stubs[i].target) >= 1
  {
    CountPresent(stubs, stubs[i]);
  }

  /**
   * Which stubs a paste keeps: those copied from this very graph whose source is there with the type recorded
   * and outside the copy, and whose target is in the copy with the type recorded, fed by no copied link and
   * named by no other stub; and that both addresses resolve and the caller accepts.
   */
  lemma StubKeptExactly(t: Target, env: Envelope, resolves: Stub -> bool, accept: Stub -> bool, i: nat)
    requires i < |env.externalIncoming|
    ensures var s := env.externalIncoming[i];
            s in ValidExternalIncoming(t, env, resolves, accept) <==>
              && env.version >= 2 && env.scope == Some((t.lineage, t.graph)) && s.lineage == t.lineage
                 && s.graph == t.graph
              && s.source in t.nodeTypes && t.nodeTypes[s.source] == s.sourceType
              && (forall k :: 0 <= k < |env.nodes| ==> env.nodes[k].id != s.source)
              && (exists k :: NodeAt(env, s.target.node, k) && env.nodes[k].nodeType == s.targetType)
              && (forall l :: l in env.links ==> l.to != PortEndpoint(s.target))
              && (forall j :: NamesAt(env.externalIncoming, s.target, j) ==> j == i)
              && resolves(s) && accept(s)
  {
    var s := env.externalIncoming[i];
    CountsOnce(env.externalIncoming, i);
    NodeIn(env, s.source);
    NodeIn(env, s.target.node);
    TypedAt(env, s.target.node, s.targetType);
    assert ValidOf(t, env, resolves, accept)(s) <==> ValidStub(t, env, env.externalIncoming, resolves, s) && accept(s);
    hide CountAt;
    hide NodeIds;
    hide TargetTyped;
    hide NamesAt;
    if TargetTyped(env, s.target.node, s.targetType) {
      var k :| NodeAt(env, s.target.node, k) && env.nodes[k].nodeType == s.targetType;
    }
    if k :| 0 <= k < |env.nodes| && env.nodes[k].id == s.source {
      assert NodeAt(env, s.source, k);
    }
  }

  lemma TypedAt(env: Envelope, n: Id, nodeType: Id)
    ensures TargetTyped(env, n, nodeType) <==> exists k :: NodeAt(env, n, k) && env.nodes[k].nodeType == nodeType
  {
    if TargetTyped(env, n, nodeType) {
      var k :| 0 <= k < |env.nodes| && env.nodes[k] == NodeItem(n, nodeType);
      assert NodeAt(env, n, k);
    }
    if k :| NodeAt(env, n, k) && env.nodes[k].nodeType == nodeType {
      assert env.nodes[k] == NodeItem(n, nodeType) && env.nodes[k] in env.nodes;
    }
  }

  /** Validated stubs are what the paste relies on: one for each target, and none on an input a copied link feeds. */
  lemma ValidatedStubsFree(t: Target, env: Envelope, resolves: Stub -> bool, accept: Stub -> bool)
    ensures StubsFree(env, ValidExternalIncoming(t, env, resolves, accept))
  {
    var kept := ValidExternalIncoming(t, env, resolves, accept);
    var stubs := env.externalIncoming;
    hide NamesAt;
    hide NodeAt;
    forall i, j | 0 <= i < j < |kept|
      ensures kept[i].target != kept[j].target
    {
      var a, b := FilterNth(stubs, ValidOf(t, env, resolves, accept), i, j);
      StubKeptExactly(t, env, resolves, accept, a);
      NamedAgain(stubs, a, b);
    }
    forall s, l | s in kept && l in env.links
      ensures l.to != PortEndpoint(s.target)
    {
      var a :| 0 <= a < |stubs| && stubs[a] == s;
      StubKeptExactly(t, env, resolves, accept, a);
    }
    hide ValidStub;
  }

  lemma NamedAgain(stubs: seq<Stub>, a: nat, b: nat)
    requires a < b < |stubs|
    requires forall j :: NamesAt(stubs, stubs[a].target, j) ==> j == a
    ensures stubs[a].target != stubs[b].target
  {
    assert NamesAt(stubs, stubs[a].target, b) <==> stubs[b].target == stubs[a].target;
  }

  // ---------------------------------------------------------------------
  // Nothing drives twice

  lemma RevalidatedFree(t: Target, env: Envelope, resolves: Stub -> bool, connectInputs: bool)
    ensures StubsFree(env, Filter(Revalidated(t, env, resolves, connectInputs), CopiedTargets(env)))
  {
    var incoming := Revalidated(t, env, resolves, connectInputs);
    hide ValidExternalIncoming;
    hide NodeIds;
    if connectInputs {
      TargetsCopied(t, env, resolves, AcceptAll());
      FilterKeepsAll(incoming, CopiedTargets(env));
      ValidatedStubsFree(t, env, resolves, AcceptAll());
    } else {
      assert incoming == [];
    }
  }

  /**
   * Nothing a paste makes drives an input twice: the ends of its links, of its rewired inputs and the sinks
   * of its nets are all distinct, as long as no two of the copied links ended in one input.
   */
  lemma DrivenOnce(d: Ordinals, actor: Option<string>, lower: Name -> Id, t: Target, env: Envelope,
                   resolves: Stub -> bool, connectInputs: bool, definitions: DefinitionPlanner, made: Pasted)
    requires var incoming := Revalidated(t, env, resolves, connectInputs);
             && Pasteable(d, actor, lower, t, env, incoming, definitions)
             && PastedAs(d, actor, lower, t, env, incoming, definitions, made)
    requires Normalized(env) && ValidActor(actor) && SingleDrivers(env)
    ensures Distinct(LinkEnds(made.links) + StubEnds(made.incoming) + AllSinks(made.nets))
  {
    hide *;
    var incoming := Revalidated(t, env, resolves, connectInputs);
    var stubs := Filter(incoming, CopiedTargets(env));
    RevalidatedFree(t, env, resolves, connectInputs);
    PastedLinksJoin(d, actor, lower, t, env, incoming, definitions, made);
    RewiredInputs(d, actor, lower, t, env, incoming, definitions, made);
    PastedLinks(d, actor, lower, t, env, incoming, definitions, made);
    NodesFit(d, actor, lower, t, env, incoming, definitions);
    IdsApart(CursorOf(d, actor), |env.nodes|, actor);
    PastedEndsApart(env, made, CursorOf(d, actor), actor);
    StubEndsApart(env, made, stubs);
    StubsOffLinks(env, made, stubs, CursorOf(d, actor), actor);
    LinkEndsApart(made.links);
    EndsApartFrom(made, stubs);
    ThreeApart(LinkEnds(made.links), StubEnds(made.incoming), AllSinks(made.nets));
  }
}
