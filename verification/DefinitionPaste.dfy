/**
 * Pasting subgraph definitions into another document: which are kept, which are imported and
 * under what ids, and that a pasted definition unfolds to the tree the copied one did.
 */
module DefinitionPaste {
  import opened Identity
  import opened Graphs
  import opened Definitions

  /** `layout` is a graph's view and net tags in canonical form; nothing stands for the empty one. */
  datatype Document = Document(lineage: Id, graphs: DefMap, layout: map<GraphId, Option<Id>>)

  datatype Closure = Closure(graphs: DefMap, layout: map<GraphId, Option<Id>>)

  datatype Envelope = Envelope(lineage: Option<Id>, nodes: seq<Node>, definitions: Option<Closure>)

  datatype Import = Import(id: GraphId, graph: Definition, layout: Option<Id>)

  datatype Plan = Plan(ids: map<GraphId, GraphId>, imports: seq<Import>)

  function LayoutOf(layout: map<GraphId, Option<Id>>, g: GraphId): Option<Id> {
    if g in layout then layout[g] else None
  }

  function Renamed(ids: map<GraphId, GraphId>, g: GraphId): GraphId {
    if g in ids then ids[g] else g
  }

  function RemapNodeType(t: NodeType, ids: map<GraphId, GraphId>): NodeType {
    match t
    case Instance(d) => Instance(Renamed(ids, d))
    case Plain(_) => t
  }

  function RewriteDefinition(graph: Definition, id: GraphId, ids: map<GraphId, GraphId>): Definition {
    graph.(id := id, nodes := map n | n in graph.nodes ::
      graph.nodes[n].(kind := RemapNodeType(graph.nodes[n].kind, ids)))
  }

  /** The definitions the copied nodes instantiate. */
  function Roots(nodes: seq<Node>): seq<GraphId> {
    if nodes == [] then []
    else (if nodes[0].kind.Instance? then [nodes[0].kind.def] else []) + Roots(nodes[1..])
  }

  /** Committing the imports, one after another. */
  function WithImports(doc: Document, imports: seq<Import>): Document {
    if imports == [] then doc
    else
      var before := WithImports(doc, imports[..|imports| - 1]);
      var last := imports[|imports| - 1];
      before.(graphs := before.graphs[last.id := last.graph], layout := before.layout[last.id := last.layout])
  }

  // ---------------------------------------------------------------------
  // Fresh ids

  /** Every generated id below the cursor is taken. */
  ghost predicate TakenBelow(cursor: nat, reserved: set<GraphId>) {
    forall i :: 0 <= i < cursor ==> Generated(i) in reserved
  }

  lemma {:induction false} CursorBounded(cursor: nat, reserved: set<GraphId>)
    requires TakenBelow(cursor, reserved)
    ensures cursor <= |reserved|
  {
    if cursor > 0 {
      var fewer := reserved - {Generated(cursor - 1)};
      CursorBounded(cursor - 1, fewer);
      assert reserved == fewer + {Generated(cursor - 1)};
    }
  }

  /** The next unreserved generated id; the bounded scan always finds one. */
  method FreshId(reserved: set<GraphId>, cursor: nat) returns (id: Option<GraphId>, cursor': nat)
    requires TakenBelow(cursor, reserved)
    ensures id.Some? && id.value !in reserved && cursor' > 0 && id.value == Generated(cursor' - 1)
    ensures TakenBelow(cursor' - 1, reserved) && TakenBelow(cursor', reserved + {id.value})
  {
    cursor' := cursor;
    id := None;
    CursorBounded(cursor, reserved);
    while cursor' <= |reserved| && id.None?
      invariant TakenBelow(cursor', if id.Some? then reserved + {id.value} else reserved)
      invariant id.Some? ==>
                  id.value !in reserved && cursor' > 0 && id.value == Generated(cursor' - 1)
                    && TakenBelow(cursor' - 1, reserved)
      invariant id.None? ==> cursor' <= |reserved|
      decreases |reserved| + 1 - cursor', id.None?
    {
      var candidate := Generated(cursor');
      cursor' := cursor' + 1;
      if candidate !in reserved {
        id := Some(candidate);
      } else {
        CursorBounded(cursor', reserved);
      }
    }
  }

  // ---------------------------------------------------------------------
  // What a plan means

  /** The definition planned for `s` is in the target, rewritten, with the copied layout. */
  ghost predicate Placed(target: Document, closure: Closure, ids: map<GraphId, GraphId>, s: GraphId) {
    && s in ids && s in closure.graphs && ids[s] in target.graphs
    && target.graphs[ids[s]] == RewriteDefinition(closure.graphs[s], ids[s], ids)
    && LayoutOf(target.layout, ids[s]) == LayoutOf(closure.layout, s)
  }

  ghost predicate Injective(ids: map<GraphId, GraphId>) {
    forall s, t :: s in ids && t in ids && ids[s] == ids[t] ==> s == t
  }

  ghost predicate Used(ids: map<GraphId, GraphId>, id: GraphId) {
    exists s :: s in ids && ids[s] == id
  }

  /** The target keeps every definition and layout it had. */
  ghost predicate Undisturbed(doc: Document, target: Document) {
    forall g :: g in doc.graphs ==>
      g in target.graphs && target.graphs[g] == doc.graphs[g] && LayoutOf(target.layout, g) == LayoutOf(doc.layout, g)
  }

  /** The document holds at `s` just what was copied: the definition with its instances renamed, and the layout. */
  ghost predicate Held(doc: Document, closure: Closure, ids: map<GraphId, GraphId>, s: GraphId) {
    && s in closure.graphs && s in doc.graphs && doc.graphs[s] == RewriteDefinition(closure.graphs[s], s, ids)
    && LayoutOf(doc.layout, s) == LayoutOf(closure.layout, s)
  }

  /** An id that neither side had, the first one generated that no id given before it had. */
  ghost predicate New(doc: Document, closure: Closure, ids: map<GraphId, GraphId>, id: GraphId) {
    && id !in doc.graphs && id !in closure.graphs && id.Generated?
    && forall i ::
       0 <= i < id.ordinal ==> Generated(i) in doc.graphs || Generated(i) in closure.graphs || Used(ids, Generated(i))
  }

  ghost predicate ImportsIt(closure: Closure, ids: map<GraphId, GraphId>, last: Import, s: GraphId) {
    && s in ids && s in closure.graphs && last.id == ids[s]
    && last.graph == RewriteDefinition(closure.graphs[s], ids[s], ids) && last.layout == LayoutOf(closure.layout, s)
  }

  ghost predicate ImportedIn(closure: Closure, ids: map<GraphId, GraphId>, imports: seq<Import>, s: GraphId) {
    exists i :: 0 <= i < |imports| && ImportsIt(closure, ids, imports[i], s)
  }

  /** What is held is kept; anything else is imported, under its own id if that is free and under a new one if not. */
  ghost predicate ChosenFor(doc: Document, closure: Closure, ids: map<GraphId, GraphId>, imports: seq<Import>,
                            s: GraphId)
    requires s in ids
  {
    if Held(doc, closure, ids, s) then ids[s] == s
    else ImportedIn(closure, ids, imports, s) && if s in doc.graphs then New(doc, closure, ids, ids[s]) else ids[s] == s
  }

  /** An import is of some definition that is not held. */
  ghost predicate CalledFor(doc: Document, closure: Closure, ids: map<GraphId, GraphId>, last: Import) {
    exists s :: s in ids && ImportsIt(closure, ids, last, s) && !Held(doc, closure, ids, s)
  }

  ghost predicate Chosen(doc: Document, closure: Closure, ids: map<GraphId, GraphId>, imports: seq<Import>) {
    && (forall s :: s in ids ==> ChosenFor(doc, closure, ids, imports, s))
    && (forall i :: 0 <= i < |imports| ==> CalledFor(doc, closure, ids, imports[i]))
  }

  /** A faithful plan: one target definition for each reached one, none overwritten, all rewritten consistently. */
  ghost predicate Faithful(doc: Document, closure: Closure, roots: seq<GraphId>, plan: Plan) {
    && (forall g :: g in plan.ids <==> FromRoots(Children(closure.graphs), roots, g))
    && Injective(plan.ids)
    && (forall i :: 0 <= i < |plan.imports| ==> plan.imports[i].id !in doc.graphs)
    && (forall i, j :: 0 <= i < j < |plan.imports| ==> plan.imports[i].id != plan.imports[j].id)
    && Undisturbed(doc, WithImports(doc, plan.imports))
    && (forall s :: s in plan.ids ==> Placed(WithImports(doc, plan.imports), closure, plan.ids, s))
    && Chosen(doc, closure, plan.ids, plan.imports)
  }

  // ---------------------------------------------------------------------
  // Planning

  /** The ids given so far: one for each definition done, apart from each other and from what the document holds. */
  ghost predicate IdsGiven(doc: Document, closure: Closure, done: seq<GraphId>, plan: Plan, reserved: set<GraphId>) {
    && (forall g :: g in plan.ids <==> g in done)
    && doc.graphs.Keys <= reserved && closure.graphs.Keys <= reserved
    && (forall s :: s in plan.ids ==> plan.ids[s] in reserved)
    && (forall g :: g in reserved ==> g in doc.graphs || g in closure.graphs || Used(plan.ids, g))
    && (forall s :: s in plan.ids && plan.ids[s] != s ==> plan.ids[s] !in closure.graphs)
    && Injective(plan.ids)
    && (forall i :: 0 <= i < |plan.imports| ==> plan.imports[i].id !in doc.graphs && Used(plan.ids, plan.imports[i].id))
    && (forall i, j :: 0 <= i < j < |plan.imports| ==> plan.imports[i].id != plan.imports[j].id)
  }

  ghost predicate AllPlaced(doc: Document, closure: Closure, plan: Plan) {
    && Undisturbed(doc, WithImports(doc, plan.imports))
    && (forall s :: s in plan.ids ==> Placed(WithImports(doc, plan.imports), closure, plan.ids, s))
  }

  /** The loop's state after some of the ordered definitions. */
  ghost predicate Planning(doc: Document, closure: Closure, done: seq<GraphId>, plan: Plan, reserved: set<GraphId>,
                           cursor: nat)
  {
    && IdsGiven(doc, closure, done, plan, reserved) && AllPlaced(doc, closure, plan) && TakenBelow(cursor, reserved)
    && Chosen(doc, closure, plan.ids, plan.imports)
  }

  /** Renaming more definitions changes nothing in a definition whose children are all renamed already. */
  lemma RewriteStable(graph: Definition, id: GraphId, ids: map<GraphId, GraphId>, s: GraphId, x: GraphId)
    requires ChildrenOf(graph) <= ids.Keys && s !in ids
    ensures RewriteDefinition(graph, id, ids[s := x]) == RewriteDefinition(graph, id, ids)
  {
    forall n | n in graph.nodes
      ensures RemapNodeType(graph.nodes[n].kind, ids[s := x]) == RemapNodeType(graph.nodes[n].kind, ids)
    {
      if graph.nodes[n].kind.Instance? {
        assert graph.nodes[n].kind.def in ChildrenOf(graph);
      }
    }
  }

  lemma PlacedStable(target: Document, target': Document, closure: Closure, ids: map<GraphId, GraphId>, s: GraphId,
                     x: GraphId, t: GraphId)
    requires Placed(target, closure, ids, t) && s !in ids && ChildrenOf(closure.graphs[t]) <= ids.Keys
    requires ids[t] in target'.graphs && target'.graphs[ids[t]] == target.graphs[ids[t]]
    requires LayoutOf(target'.layout, ids[t]) == LayoutOf(target.layout, ids[t])
    ensures Placed(target', closure, ids[s := x], t)
  {
    RewriteStable(closure.graphs[t], ids[t], ids, s, x);
    hide RewriteDefinition;
    hide ChildrenOf;
  }

  lemma DoneChildren(closure: Closure, order: seq<GraphId>, i: nat)
    requires ChildrenFirst(Children(closure.graphs), order) && i < |order| && order[i] in closure.graphs
    ensures ChildrenOf(closure.graphs[order[i]]) <= set g | g in order[..i]
    ensures order[i] !in order[..i] && forall t :: t in order[..i] ==> t != order[i]
    ensures forall t ::
            t in order[..i] && t in closure.graphs ==> ChildrenOf(closure.graphs[t]) <= set g | g in order[..i]
    ensures forall g :: g in order[..i + 1] <==> g in order[..i] || g == order[i]
  {
    var next := Children(closure.graphs);
    assert next(order[i]) == ChildrenOf(closure.graphs[order[i]]);
    assert order[..i + 1] == order[..i] + [order[i]];
    forall t, c | t in order[..i] && t in closure.graphs && c in ChildrenOf(closure.graphs[t])
      ensures c in order[..i]
    {
      var k :| 0 <= k < i && order[k] == t;
      assert c in next(order[k]);
      assert order[..k] <= order[..i];
    }
    hide ChildrenOf;
  }

  lemma KeepIds(doc: Document, closure: Closure, done: seq<GraphId>, plan: Plan, reserved: set<GraphId>, s: GraphId)
    requires IdsGiven(doc, closure, done, plan, reserved) && s !in done && s in doc.graphs && s in closure.graphs
    ensures IdsGiven(doc, closure, done + [s], plan.(ids := plan.ids[s := s]), reserved)
  {
    var ids := plan.ids;
    forall k | 0 <= k < |plan.imports|
      ensures Used(ids[s := s], plan.imports[k].id)
    {
      assert Used(ids, plan.imports[k].id);
      var t :| t in ids && ids[t] == plan.imports[k].id;
      assert ids[s := s][t] == plan.imports[k].id;
    }
    forall g | Used(ids, g)
      ensures Used(ids[s := s], g)
    {
      UsedMore(ids, s, s, g);
    }
  }

  lemma ImportIds(doc: Document, closure: Closure, done: seq<GraphId>, plan: Plan, reserved: set<GraphId>, s: GraphId,
                  last: Import)
    requires IdsGiven(doc, closure, done, plan, reserved) && s !in done && s in closure.graphs
    requires last.id !in doc.graphs && (last.id == s || last.id !in reserved)
    ensures forall t :: t in plan.ids ==> plan.ids[t] != last.id
    ensures IdsGiven(doc, closure, done + [s], Plan(plan.ids[s := last.id], plan.imports + [last]),
            reserved + {last.id})
  {
    var ids, id, imports := plan.ids, last.id, plan.imports + [last];
    var ids' := ids[s := id];
    assert ids'[s] == id;
    forall k | 0 <= k < |plan.imports|
      ensures Used(ids', plan.imports[k].id) && plan.imports[k].id != id
    {
      assert Used(ids, plan.imports[k].id);
      var t :| t in ids && ids[t] == plan.imports[k].id;
      assert ids'[t] == plan.imports[k].id;
    }
    forall k | 0 <= k < |imports|
      ensures imports[k].id !in doc.graphs && Used(ids', imports[k].id)
    {
      assert k < |plan.imports| ==> imports[k] == plan.imports[k];
    }
    forall g | Used(ids, g)
      ensures Used(ids', g)
    {
      UsedMore(ids, s, id, g);
    }
  }

  lemma UsedMore(ids: map<GraphId, GraphId>, s: GraphId, x: GraphId, id: GraphId)
    requires Used(ids, id) && s !in ids
    ensures Used(ids[s := x], id)
  {
    var t :| t in ids && ids[t] == id;
    assert ids[s := x][t] == id;
  }

  /** What was decided for a definition stands when further ones are. */
  lemma ChosenStable(doc: Document, closure: Closure, ids: map<GraphId, GraphId>, imports: seq<Import>,
                     more: seq<Import>, s: GraphId, x: GraphId, t: GraphId)
    requires t in ids && t in closure.graphs && s !in ids && ChildrenOf(closure.graphs[t]) <= ids.Keys
    requires ChosenFor(doc, closure, ids, imports, t)
    ensures Held(doc, closure, ids[s := x], t) <==> Held(doc, closure, ids, t)
    ensures forall last :: ImportsIt(closure, ids, last, t) <==> ImportsIt(closure, ids[s := x], last, t)
    ensures ChosenFor(doc, closure, ids[s := x], imports + more, t)
  {
    RewriteStable(closure.graphs[t], t, ids, s, x);
    RewriteStable(closure.graphs[t], ids[t], ids, s, x);
    hide RewriteDefinition;
    hide LayoutOf;
    hide ChildrenOf;
    if !Held(doc, closure, ids, t) {
      var i :| 0 <= i < |imports| && ImportsIt(closure, ids, imports[i], t);
      assert (imports + more)[i] == imports[i];
      if New(doc, closure, ids, ids[t]) {
        NewStays(doc, closure, ids, s, x, ids[t]);
      }
    }
    hide New;
  }

  lemma NewStays(doc: Document, closure: Closure, ids: map<GraphId, GraphId>, s: GraphId, x: GraphId, id: GraphId)
    requires New(doc, closure, ids, id) && s !in ids
    ensures New(doc, closure, ids[s := x], id)
  {
    hide Used;
    forall i | 0 <= i < id.ordinal && Used(ids, Generated(i))
      ensures Used(ids[s := x], Generated(i))
    {
      UsedMore(ids, s, x, Generated(i));
    }
  }

  lemma CalledStable(doc: Document, closure: Closure, ids: map<GraphId, GraphId>, imports: seq<Import>, s: GraphId,
                     x: GraphId, last: Import)
    requires s !in ids && CalledFor(doc, closure, ids, last)
    requires forall t :: t in ids ==> t in closure.graphs && ChildrenOf(closure.graphs[t]) <= ids.Keys
    requires forall t :: t in ids ==> ChosenFor(doc, closure, ids, imports, t)
    ensures CalledFor(doc, closure, ids[s := x], last)
  {
    hide ChosenFor;
    hide Held;
    hide ImportsIt;
    hide ChildrenOf;
    var t :| t in ids && ImportsIt(closure, ids, last, t) && !Held(doc, closure, ids, t);
    ChosenStable(doc, closure, ids, imports, [], s, x, t);
  }

  /** Deciding for one more definition. */
  lemma ChosenMore(doc: Document, closure: Closure, ids: map<GraphId, GraphId>, imports: seq<Import>, more: seq<Import>,
                   s: GraphId, x: GraphId)
    requires s !in ids && Chosen(doc, closure, ids, imports)
    requires forall t :: t in ids ==> t in closure.graphs && ChildrenOf(closure.graphs[t]) <= ids.Keys
    requires ChosenFor(doc, closure, ids[s := x], imports + more, s)
    requires forall i :: 0 <= i < |more| ==> CalledFor(doc, closure, ids[s := x], more[i])
    ensures Chosen(doc, closure, ids[s := x], imports + more)
  {
    hide ChosenFor;
    hide CalledFor;
    hide ChildrenOf;
    forall t | t in ids
      ensures ChosenFor(doc, closure, ids[s := x], imports + more, t)
    {
      ChosenStable(doc, closure, ids, imports, more, s, x, t);
    }
    forall i | 0 <= i < |imports|
      ensures CalledFor(doc, closure, ids[s := x], imports[i])
    {
      CalledStable(doc, closure, ids, imports, s, x, imports[i]);
    }
  }

  lemma KeepChosen(doc: Document, closure: Closure, order: seq<GraphId>, i: nat, plan: Plan)
    requires i < |order| && ChildrenFirst(Children(closure.graphs), order) && order[i] in closure.graphs
    requires (forall g :: g in plan.ids <==> g in order[..i]) && (forall t :: t in plan.ids ==> t in closure.graphs)
    requires Chosen(doc, closure, plan.ids, plan.imports)
    requires Held(doc, closure, plan.ids, order[i])
    ensures Chosen(doc, closure, plan.ids[order[i] := order[i]], plan.imports)
  {
    var s, ids := order[i], plan.ids;
    DoneChildren(closure, order, i);
    assert forall t :: t in ids ==> ChildrenOf(closure.graphs[t]) <= ids.Keys;
    RewriteStable(closure.graphs[s], s, ids, s, s);
    assert plan.imports + [] == plan.imports;
    hide RewriteDefinition;
    hide ChildrenOf;
    hide Chosen;
    hide ChildrenFirst;
    ChosenMore(doc, closure, ids, plan.imports, [], s, s);
  }

  lemma ImportChosen(doc: Document, closure: Closure, order: seq<GraphId>, i: nat, plan: Plan, id: GraphId,
                     last: Import)
    requires i < |order| && ChildrenFirst(Children(closure.graphs), order) && order[i] in closure.graphs
    requires (forall g :: g in plan.ids <==> g in order[..i]) && (forall t :: t in plan.ids ==> t in closure.graphs)
    requires Chosen(doc, closure, plan.ids, plan.imports) && !Held(doc, closure, plan.ids, order[i])
    requires last == Import(id, RewriteDefinition(closure.graphs[order[i]], id, plan.ids[order[i] := id]),
                            LayoutOf(closure.layout, order[i]))
    requires if order[i] in doc.graphs then New(doc, closure, plan.ids, id) else id == order[i]
    ensures Chosen(doc, closure, plan.ids[order[i] := id], plan.imports + [last])
  {
    var s, ids := order[i], plan.ids;
    var ids' := ids[s := id];
    DoneChildren(closure, order, i);
    assert forall t :: t in ids ==> ChildrenOf(closure.graphs[t]) <= ids.Keys;
    RewriteStable(closure.graphs[s], s, ids, s, id);
    hide RewriteDefinition;
    hide ChildrenOf;
    hide Chosen;
    hide ChildrenFirst;
    assert ImportsIt(closure, ids', last, s) && !Held(doc, closure, ids', s);
    assert (plan.imports + [last])[|plan.imports|] == last;
    if order[i] in doc.graphs {
      NewStays(doc, closure, ids, s, id, id);
    }
    ChosenMore(doc, closure, ids, plan.imports, [last], s, id);
  }

  lemma GivenIsDone(doc: Document, closure: Closure, done: seq<GraphId>, plan: Plan, reserved: set<GraphId>)
    requires IdsGiven(doc, closure, done, plan, reserved) && AllPlaced(doc, closure, plan)
    ensures (forall g :: g in plan.ids <==> g in done) && (forall t :: t in plan.ids ==> t in closure.graphs)
  {
    hide Undisturbed;
    hide WithImports;
    hide RewriteDefinition;
  }

  /** An identical definition already in the document is kept. */
  lemma KeepStep(doc: Document, closure: Closure, order: seq<GraphId>, i: nat, plan: Plan, reserved: set<GraphId>,
                 cursor: nat)
    requires i < |order| && Planning(doc, closure, order[..i], plan, reserved, cursor)
    requires ChildrenFirst(Children(closure.graphs), order) && order[i] in closure.graphs
    requires Held(doc, closure, plan.ids, order[i])
    ensures Planning(doc, closure, order[..i + 1], plan.(ids := plan.ids[order[i] := order[i]]), reserved, cursor)
  {
    hide Chosen;
    hide IdsGiven;
    hide RewriteDefinition;
    hide ChildrenFirst;
    hide AllPlaced;
    hide LayoutOf;
    hide ChildrenOf;
    var s := order[i];
    GivenIsDone(doc, closure, order[..i], plan, reserved);
    KeepChosen(doc, closure, order, i, plan);
    DoneChildren(closure, order, i);
    assert order[..i + 1] == order[..i] + [s];
    KeepIds(doc, closure, order[..i], plan, reserved, s);
    KeepPlaced(doc, closure, order, i, plan);
  }

  lemma KeepPlaced(doc: Document, closure: Closure, order: seq<GraphId>, i: nat, plan: Plan)
    requires i < |order| && AllPlaced(doc, closure, plan) && forall g :: g in plan.ids <==> g in order[..i]
    requires ChildrenFirst(Children(closure.graphs), order) && order[i] in closure.graphs
    requires Held(doc, closure, plan.ids, order[i])
    ensures AllPlaced(doc, closure, plan.(ids := plan.ids[order[i] := order[i]]))
  {
    hide WithImports;
    hide ChildrenOf;
    hide ChildrenFirst;
    hide LayoutOf;
    var s, ids := order[i], plan.ids;
    var target := WithImports(doc, plan.imports);
    DoneChildren(closure, order, i);
    RewriteStable(closure.graphs[s], s, ids, s, s);
    forall t | t in ids
      ensures Placed(target, closure, ids[s := s], t)
    {
      PlacedStable(target, target, closure, ids, s, s, t);
    }
    hide RewriteDefinition;
    assert Placed(target, closure, ids[s := s], s);
  }

  /** A definition the document lacks, or has otherwise, is imported under an id of its own. */
  lemma ImportStep(doc: Document, closure: Closure, order: seq<GraphId>, i: nat, plan: Plan, reserved: set<GraphId>,
                   cursor: nat, id: GraphId, cursor': nat, last: Import)
    requires i < |order| && Planning(doc, closure, order[..i], plan, reserved, cursor)
    requires ChildrenFirst(Children(closure.graphs), order) && order[i] in closure.graphs
    requires id !in doc.graphs && (id == order[i] || id !in reserved) && TakenBelow(cursor', reserved + {id})
    requires !Held(doc, closure, plan.ids, order[i])
    requires if order[i] in doc.graphs then New(doc, closure, plan.ids, id) else id == order[i]
    requires last == Import(id, RewriteDefinition(closure.graphs[order[i]], id, plan.ids[order[i] := id]),
             LayoutOf(closure.layout, order[i]))
    ensures Planning(doc, closure, order[..i + 1], Plan(plan.ids[order[i] := id], plan.imports + [last]),
            reserved + {id}, cursor')
  {
    hide Chosen;
    hide Held;
    hide New;
    var s := order[i];
    GivenIsDone(doc, closure, order[..i], plan, reserved);
    ImportChosen(doc, closure, order, i, plan, id, last);
    DoneChildren(closure, order, i);
    assert order[..i + 1] == order[..i] + [s];
    ImportIds(doc, closure, order[..i], plan, reserved, s, last);
    assert forall g :: g in plan.ids <==> g in order[..i];
    hide IdsGiven;
    hide RewriteDefinition;
    hide ChildrenFirst;
    hide AllPlaced;
    hide LayoutOf;
    ImportPlaced(doc, closure, order[..i], plan, s, id, last);
  }

  lemma ImportPlaced(doc: Document, closure: Closure, done: seq<GraphId>, plan: Plan, s: GraphId, id: GraphId,
                     last: Import)
    requires AllPlaced(doc, closure, plan) && forall g :: g in plan.ids <==> g in done
    requires s in closure.graphs && s !in done && id !in doc.graphs && forall t :: t in plan.ids ==> plan.ids[t] != id
    requires forall t :: t in done && t in closure.graphs ==> ChildrenOf(closure.graphs[t]) <= set g | g in done
    requires last == Import(id, RewriteDefinition(closure.graphs[s], id, plan.ids[s := id]),
             LayoutOf(closure.layout, s))
    ensures AllPlaced(doc, closure, Plan(plan.ids[s := id], plan.imports + [last]))
  {
    var ids, imports := plan.ids, plan.imports + [last];
    var target, target' := WithImports(doc, plan.imports), WithImports(doc, imports);
    assert imports[..|plan.imports|] == plan.imports;
    assert target'.graphs == target.graphs[id := last.graph] && target'.layout == target.layout[id := last.layout];
    hide WithImports;
    hide ChildrenOf;
    forall t | t in ids
      ensures Placed(target', closure, ids[s := id], t)
    {
      PlacedStable(target, target', closure, ids, s, id, t);
    }
    hide RewriteDefinition;
    assert Placed(target', closure, ids[s := id], s);
    hide Placed;
  }

  lemma PlanningStart(doc: Document, closure: Closure)
    ensures Planning(doc, closure, [], Plan(map[], []), doc.graphs.Keys + closure.graphs.Keys, 0)
  {
  }

  lemma PlanningDone(doc: Document, closure: Closure, roots: seq<GraphId>, order: seq<GraphId>, plan: Plan,
                     reserved: set<GraphId>, cursor: nat)
    requires Planning(doc, closure, order, plan, reserved, cursor)
    requires forall g :: g in order <==> FromRoots(Children(closure.graphs), roots, g)
    ensures Faithful(doc, closure, roots, plan)
  {
    hide FromRoots;
    hide Undisturbed;
    hide Placed;
    hide WithImports;
    hide TakenBelow;
    hide Chosen;
    hide Used;
  }

  /** Keeps an ordered definition that is in the document already, and imports any other. */
  method PlanOne(doc: Document, closure: Closure, ghost order: seq<GraphId>, ghost i: nat, s: GraphId, plan: Plan,
                 reserved: set<GraphId>, cursor: nat)
    returns (plan': Plan, reserved': set<GraphId>, cursor': nat)
    requires i < |order| && order[i] == s && s in closure.graphs
             && Planning(doc, closure, order[..i], plan, reserved, cursor)
    requires ChildrenFirst(Children(closure.graphs), order)
    ensures Planning(doc, closure, order[..i + 1], plan', reserved', cursor')
  {
    var source, layout := closure.graphs[s], LayoutOf(closure.layout, s);
    var atSourceId := RewriteDefinition(source, s, plan.ids);
    ReservedMeans(doc, closure, order[..i], plan, reserved, cursor);
    hide *;
    if s in doc.graphs && doc.graphs[s] == atSourceId && LayoutOf(doc.layout, s) == layout {
      ItIsHeld(doc, closure, plan.ids, s);
      KeepStep(doc, closure, order, i, plan, reserved, cursor);
      return plan.(ids := plan.ids[s := s]), reserved, cursor;
    }
    var id := s;
    cursor' := cursor;
    if s in doc.graphs {
      var unused;
      unused, cursor' := FreshId(reserved, cursor);
      id := unused.value;
      ItIsNew(doc, closure, order[..i], plan, reserved, cursor, cursor');
    }
    var ids := plan.ids[s := id];
    var last := Import(id, RewriteDefinition(source, id, ids), layout);
    assert id !in doc.graphs;
    NotHeld(doc, closure, plan.ids, s);
    reserved' := reserved + {id};
    assert s !in doc.graphs ==> reserved' == reserved;
    ImportStep(doc, closure, order, i, plan, reserved, cursor, id, cursor', last);
    plan' := Plan(ids, plan.imports + [last]);
  }

  lemma ItIsHeld(doc: Document, closure: Closure, ids: map<GraphId, GraphId>, s: GraphId)
    requires s in closure.graphs && s in doc.graphs && doc.graphs[s] == RewriteDefinition(closure.graphs[s], s, ids)
    requires LayoutOf(doc.layout, s) == LayoutOf(closure.layout, s)
    ensures Held(doc, closure, ids, s)
  {
  }

  lemma NotHeld(doc: Document, closure: Closure, ids: map<GraphId, GraphId>, s: GraphId)
    requires s in closure.graphs
    requires !(s in doc.graphs && doc.graphs[s] == RewriteDefinition(closure.graphs[s], s, ids)
               && LayoutOf(doc.layout, s) == LayoutOf(closure.layout, s))
    ensures !Held(doc, closure, ids, s)
  {
  }

  /** An unreserved generated id is new, and every one before it is reserved for a reason. */
  lemma ItIsNew(doc: Document, closure: Closure, done: seq<GraphId>, plan: Plan, reserved: set<GraphId>, cursor: nat,
                cursor': nat)
    requires Planning(doc, closure, done, plan, reserved, cursor)
    requires cursor' > 0 && Generated(cursor' - 1) !in reserved && TakenBelow(cursor' - 1, reserved)
    ensures New(doc, closure, plan.ids, Generated(cursor' - 1))
  {
    hide Used;
    hide AllPlaced;
    hide Chosen;
  }

  lemma ReservedMeans(doc: Document, closure: Closure, done: seq<GraphId>, plan: Plan, reserved: set<GraphId>,
                      cursor: nat)
    requires Planning(doc, closure, done, plan, reserved, cursor)
    ensures doc.graphs.Keys <= reserved && closure.graphs.Keys <= reserved && TakenBelow(cursor, reserved)
  {
  }

  /**
   * The target ids of an envelope's definitions and what must be imported; refused on a cycle or a
   * missing definition.
   */
  method PlanDefinitionPaste(doc: Document, envelope: Envelope) returns (plan: Option<Plan>)
    ensures envelope.definitions.None? ==> plan == Some(Plan(map[], []))
    ensures envelope.definitions.Some? ==>
              var closure, roots := envelope.definitions.value, Roots(envelope.nodes);
              if envelope.lineage == Some(doc.lineage) && closure.graphs.Keys <= doc.graphs.Keys then
                plan == Some(Plan(map g | g in closure.graphs :: g, []))
              else
                && (plan.Some? <==> WellFounded(closure.graphs.Keys, Children(closure.graphs), roots))
                && (plan.Some? ==> Faithful(doc, closure, roots, plan.value))
  {
    if envelope.definitions.None? {
      return Some(Plan(map[], []));
    }
    var closure := envelope.definitions.value;
    if envelope.lineage == Some(doc.lineage) && forall g :: g in closure.graphs ==> g in doc.graphs {
      return Some(Plan(map g | g in closure.graphs :: g, []));
    }
    plan := PlanAcross(doc, closure, Roots(envelope.nodes));
  }

  method PlanAcross(doc: Document, closure: Closure, roots: seq<GraphId>) returns (plan: Option<Plan>)
    ensures plan.Some? <==> WellFounded(closure.graphs.Keys, Children(closure.graphs), roots)
    ensures plan.Some? ==> Faithful(doc, closure, roots, plan.value)
  {
    var order := DefinitionOrder(closure.graphs, roots);
    if order.None? {
      return None;
    }
    var planned, reserved, cursor := Plan(map[], []), doc.graphs.Keys + closure.graphs.Keys, 0;
    PlanningStart(doc, closure);
    assert forall g :: g in order.value ==> g in closure.graphs;
    assert order.value[..0] == [];
    hide *;
    for i := 0 to |order.value|
      invariant Planning(doc, closure, order.value[..i], planned, reserved, cursor)
    {
      planned, reserved, cursor := PlanOne(doc, closure, order.value, i, order.value[i], planned, reserved, cursor);
    }
    assert order.value[..|order.value|] == order.value;
    PlanningDone(doc, closure, roots, order.value, planned, reserved, cursor);
    return Some(planned);
  }

  /**
   * A copied definition keeps its id without an import exactly when the document holds it already; otherwise there is
   * exactly one import for it, under its own id if the document has none of that id, and under a new one if it has.
   */
  lemma ImportedExactly(doc: Document, closure: Closure, roots: seq<GraphId>, plan: Plan, s: GraphId)
    requires Faithful(doc, closure, roots, plan) && s in plan.ids
    ensures Held(doc, closure, plan.ids, s) <==> forall i ::
            0 <= i < |plan.imports| ==> plan.imports[i].id != plan.ids[s]
    ensures Held(doc, closure, plan.ids, s) ==> plan.ids[s] == s
    ensures !Held(doc, closure, plan.ids, s) ==>
              exists i :: 0 <= i < |plan.imports| && ImportsIt(closure, plan.ids, plan.imports[i], s)
                          && forall j :: 0 <= j < |plan.imports| && plan.imports[j].id == plan.ids[s] ==> j == i
    ensures !Held(doc, closure, plan.ids, s) && s in doc.graphs ==> New(doc, closure, plan.ids, plan.ids[s])
    ensures s !in doc.graphs ==> plan.ids[s] == s
  {
    hide RewriteDefinition;
    hide LayoutOf;
    hide WithImports;
    hide Placed;
    hide Undisturbed;
    hide FromRoots;
    hide New;
    assert ChosenFor(doc, closure, plan.ids, plan.imports, s);
    if !Held(doc, closure, plan.ids, s) {
      var i :| 0 <= i < |plan.imports| && ImportsIt(closure, plan.ids, plan.imports[i], s);
    }
  }

  /** A layout, where there is one. */
  ghost predicate LaidOut(layout: map<GraphId, Option<Id>>, g: GraphId, l: Id) {
    g in layout && layout[g] == Some(l)
  }

  /** A copied definition keeps the layout it was copied with, and one of the document its own. */
  lemma LayoutsCarried(doc: Document, closure: Closure, roots: seq<GraphId>, plan: Plan, g: GraphId, l: Id)
    requires Faithful(doc, closure, roots, plan)
    ensures var target := WithImports(doc, plan.imports);
            && (g in plan.ids ==> (LaidOut(target.layout, plan.ids[g], l) <==> LaidOut(closure.layout, g, l)))
            && (g in doc.graphs ==> (LaidOut(target.layout, g, l) <==> LaidOut(doc.layout, g, l)))
  {
    hide WithImports;
    hide RewriteDefinition;
    hide Chosen;
    hide FromRoots;
    if g in plan.ids {
      assert Placed(WithImports(doc, plan.imports), closure, plan.ids, g);
    }
  }

  // ---------------------------------------------------------------------
  // Pasting again

  /** Under a plan that renamed nothing, the document afterwards holds everything that was planned. */
  lemma HeldAfter(doc: Document, closure: Closure, roots: seq<GraphId>, plan: Plan, s: GraphId)
    requires Faithful(doc, closure, roots, plan) && s in plan.ids && plan.ids[s] == s
    ensures Held(WithImports(doc, plan.imports), closure, plan.ids, s)
  {
    assert Placed(WithImports(doc, plan.imports), closure, plan.ids, s);
    hide WithImports;
    hide RewriteDefinition;
    hide Chosen;
    hide FromRoots;
    hide Undisturbed;
  }

  lemma RewriteAlike(graph: Definition, id: GraphId, ids: map<GraphId, GraphId>, ids': map<GraphId, GraphId>)
    requires forall c :: c in ChildrenOf(graph) ==> Renamed(ids, c) == Renamed(ids', c)
    ensures RewriteDefinition(graph, id, ids) == RewriteDefinition(graph, id, ids')
  {
    forall n | n in graph.nodes
      ensures RemapNodeType(graph.nodes[n].kind, ids) == RemapNodeType(graph.nodes[n].kind, ids')
    {
      if graph.nodes[n].kind.Instance? {
        assert graph.nodes[n].kind.def in ChildrenOf(graph);
      }
    }
  }

  /** The planned definitions below one. */
  ghost function Below(closure: Closure, ids: map<GraphId, GraphId>, s: GraphId): set<GraphId> {
    set c | c in ids && ReachesPlus(Children(closure.graphs), s, c)
  }

  lemma {:induction false} SmallerSet(a: set<GraphId>, b: set<GraphId>)
    requires a <= b
    ensures |a| <= |b|
    decreases b
  {
    if x :| x in b && x !in a {
      SmallerSet(a, b - {x});
    } else {
      assert a == b;
    }
  }

  lemma BelowChild(closure: Closure, roots: seq<GraphId>, ids: map<GraphId, GraphId>, s: GraphId, c: GraphId)
    requires WellFounded(closure.graphs.Keys, Children(closure.graphs), roots)
    requires forall g :: g in ids <==> FromRoots(Children(closure.graphs), roots, g)
    requires s in ids && s in closure.graphs && c in ChildrenOf(closure.graphs[s])
    ensures c in ids && |Below(closure, ids, c)| < |Below(closure, ids, s)|
  {
    var next := Children(closure.graphs);
    ChildrenPlanned(closure, roots, Plan(ids, []), s);
    Edge(next, s, c);
    forall x | x in Below(closure, ids, c)
      ensures x in Below(closure, ids, s)
    {
      PlusTrans(next, s, c, x);
    }
    assert c !in Below(closure, ids, c) && c in Below(closure, ids, s);
    SmallerSet(Below(closure, ids, c), Below(closure, ids, s) - {c});
  }

  /** Pasting again right after a paste that renamed nothing keeps every definition. */
  lemma {:induction false} KeptAgain(doc: Document, closure: Closure, roots: seq<GraphId>, plan: Plan, again: Plan,
                                     s: GraphId)
    requires Faithful(doc, closure, roots, plan) && (forall t :: t in plan.ids ==> plan.ids[t] == t)
    requires Faithful(WithImports(doc, plan.imports), closure, roots, again)
    requires WellFounded(closure.graphs.Keys, Children(closure.graphs), roots) && s in plan.ids
    ensures s in again.ids && again.ids[s] == s && Held(WithImports(doc, plan.imports), closure, again.ids, s)
    decreases |Below(closure, plan.ids, s)|
  {
    hide Faithful;
    hide ChildrenOf;
    hide WithImports;
    hide RewriteDefinition;
    hide WellFounded;
    hide Below;
    var target := WithImports(doc, plan.imports);
    PlansRoots(doc, closure, roots, plan);
    SameKeys(doc, closure, roots, plan, again, s);
    HeldAfter(doc, closure, roots, plan, s);
    ChosenHere(target, closure, roots, again, s);
    forall c | c in ChildrenOf(closure.graphs[s])
      ensures Renamed(plan.ids, c) == Renamed(again.ids, c)
    {
      BelowChild(closure, roots, plan.ids, s, c);
      KeptAgain(doc, closure, roots, plan, again, c);
    }
    RewriteAlike(closure.graphs[s], s, plan.ids, again.ids);
  }

  lemma PlansRoots(doc: Document, closure: Closure, roots: seq<GraphId>, plan: Plan)
    requires Faithful(doc, closure, roots, plan)
    ensures forall g :: g in plan.ids <==> FromRoots(Children(closure.graphs), roots, g)
  {
    hide Chosen;
    hide Undisturbed;
    hide Placed;
    hide FromRoots;
    hide WithImports;
  }

  lemma SameKeys(doc: Document, closure: Closure, roots: seq<GraphId>, plan: Plan, again: Plan, s: GraphId)
    requires Faithful(doc, closure, roots, plan) && Faithful(WithImports(doc, plan.imports), closure, roots, again)
    ensures s in plan.ids <==> s in again.ids
  {
    hide Chosen;
    hide Undisturbed;
    hide Placed;
    hide FromRoots;
    hide WithImports;
  }

  lemma ChosenHere(doc: Document, closure: Closure, roots: seq<GraphId>, plan: Plan, s: GraphId)
    requires Faithful(doc, closure, roots, plan) && s in plan.ids
    ensures ChosenFor(doc, closure, plan.ids, plan.imports, s)
  {
    hide ChosenFor;
    hide Undisturbed;
    hide Placed;
    hide FromRoots;
    hide WithImports;
  }

  /** Pasting again right after a paste that renamed nothing imports nothing and renames nothing. */
  lemma PastedAgain(doc: Document, closure: Closure, roots: seq<GraphId>, plan: Plan, again: Plan)
    requires Faithful(doc, closure, roots, plan) && (forall s :: s in plan.ids ==> plan.ids[s] == s)
    requires Faithful(WithImports(doc, plan.imports), closure, roots, again)
    requires WellFounded(closure.graphs.Keys, Children(closure.graphs), roots)
    ensures again == Plan(plan.ids, [])
  {
    hide *;
    var target := WithImports(doc, plan.imports);
    forall s
      ensures s in plan.ids <==> s in again.ids
      ensures s in again.ids ==> again.ids[s] == plan.ids[s] && Held(target, closure, again.ids, s)
    {
      SameKeys(doc, closure, roots, plan, again, s);
      if s in plan.ids {
        KeptAgain(doc, closure, roots, plan, again, s);
      }
    }
    NothingCalledFor(target, closure, roots, again);
    assert again.ids == plan.ids;
  }

  lemma NothingCalledFor(doc: Document, closure: Closure, roots: seq<GraphId>, plan: Plan)
    requires Faithful(doc, closure, roots, plan) && forall s :: s in plan.ids ==> Held(doc, closure, plan.ids, s)
    ensures plan.imports == []
  {
    hide Held;
    hide Undisturbed;
    hide Placed;
    hide FromRoots;
    hide WithImports;
    hide ImportsIt;
    assert |plan.imports| > 0 ==> CalledFor(doc, closure, plan.ids, plan.imports[0]);
  }

  // ---------------------------------------------------------------------
  // What a definition stands for

  /** A definition with its instances replaced by what they contain, `Cut` below the depth looked at. */
  datatype Tree = Cut | Absent | Unfolded(body: Id, nodes: map<Id, Branch>)
  datatype Branch = Leaf(plain: Id, data: Id) | Inside(tree: Tree, data: Id)

  function Unfold(graphs: DefMap, g: GraphId, depth: nat): Tree
    decreases depth, 0
  {
    if depth == 0 then Cut
    else if g !in graphs then Absent
    else Unfolded(graphs[g].body, map n | n in graphs[g].nodes :: UnfoldNode(graphs, graphs[g].nodes[n], depth - 1))
  }

  function UnfoldNode(graphs: DefMap, node: Node, depth: nat): Branch
    decreases depth, 1
  {
    match node.kind
    case Plain(p) => Leaf(p, node.body)
    case Instance(d) => Inside(Unfold(graphs, d, depth), node.body)
  }

  /** A closed family of definitions, renamed consistently from `source` into `target`. */
  ghost predicate Renames(source: DefMap, target: DefMap, ids: map<GraphId, GraphId>) {
    forall s :: s in ids ==>
      s in source && ids[s] in target && target[ids[s]] == RewriteDefinition(source[s], ids[s], ids)
        && ChildrenOf(source[s]) <= ids.Keys
  }

  /** A consistent renaming preserves what every renamed definition unfolds to. */
  lemma {:induction false} RenamedUnfoldsAlike(source: DefMap, target: DefMap, ids: map<GraphId, GraphId>, s: GraphId,
                                               depth: nat)
    requires Renames(source, target, ids) && s in ids
    ensures Unfold(target, ids[s], depth) == Unfold(source, s, depth)
    decreases depth
  {
    if depth > 0 {
      var d, renamed := source[s], target[ids[s]];
      forall n | n in d.nodes
        ensures UnfoldNode(target, renamed.nodes[n], depth - 1) == UnfoldNode(source, d.nodes[n], depth - 1)
      {
        if d.nodes[n].kind.Instance? {
          var child := d.nodes[n].kind.def;
          assert child in ChildrenOf(d);
          RenamedUnfoldsAlike(source, target, ids, child, depth - 1);
        }
      }
    }
  }

  /**
   * Pasting across documents preserves meaning: in the target, a pasted definition unfolds, to
   * any depth, to the tree the copied one unfolds to.
   */
  lemma PastedUnfoldsAlike(doc: Document, closure: Closure, roots: seq<GraphId>, plan: Plan, s: GraphId, depth: nat)
    requires Faithful(doc, closure, roots, plan) && s in plan.ids
    ensures Unfold(WithImports(doc, plan.imports).graphs, plan.ids[s], depth) == Unfold(closure.graphs, s, depth)
  {
    var target := WithImports(doc, plan.imports);
    forall x | x in plan.ids
      ensures Placed(target, closure, plan.ids, x) && ChildrenOf(closure.graphs[x]) <= plan.ids.Keys
    {
      assert Placed(target, closure, plan.ids, x);
      ChildrenPlanned(closure, roots, plan, x);
    }
    hide Faithful;
    hide WithImports;
    hide RewriteDefinition;
    hide ChildrenOf;
    hide Unfold;
    RenamedUnfoldsAlike(closure.graphs, target.graphs, plan.ids, s, depth);
  }

  lemma ChildrenPlanned(closure: Closure, roots: seq<GraphId>, plan: Plan, s: GraphId)
    requires forall g :: g in plan.ids <==> FromRoots(Children(closure.graphs), roots, g)
    requires s in plan.ids && s in closure.graphs
    ensures ChildrenOf(closure.graphs[s]) <= plan.ids.Keys
  {
    var next := Children(closure.graphs);
    forall c | c in ChildrenOf(closure.graphs[s])
      ensures c in plan.ids
    {
      var k :| 0 <= k < |roots| && Reaches(next, roots[k], s);
      Snoc(next, roots[k], s, c);
    }
  }

  lemma {:induction false} RootOf(nodes: seq<Node>, node: Node)
    requires node in nodes && node.kind.Instance?
    ensures node.kind.def in Roots(nodes)
  {
    if nodes[0] != node {
      RootOf(nodes[1..], node);
    }
  }

  /** A pasted node, retyped, stands for what the copied node stood for. */
  lemma PastedNodeMeansAlike(doc: Document, closure: Closure, nodes: seq<Node>, plan: Plan, node: Node, depth: nat)
    requires Faithful(doc, closure, Roots(nodes), plan) && node in nodes
    ensures UnfoldNode(WithImports(doc, plan.imports).graphs, node.(kind := RemapNodeType(node.kind, plan.ids)), depth)
            == UnfoldNode(closure.graphs, node, depth)
  {
    if node.kind.Instance? {
      var d, roots := node.kind.def, Roots(nodes);
      RootOf(nodes, node);
      var k :| 0 <= k < |roots| && roots[k] == d;
      Refl(Children(closure.graphs), d);
      assert FromRoots(Children(closure.graphs), roots, d);
      PastedUnfoldsAlike(doc, closure, roots, plan, d, depth);
    }
  }

  /** What the document's own definitions stand for does not change, as long as none of them is dangling. */
  lemma {:induction false} OthersUnfoldAlike(doc: Document, closure: Closure, roots: seq<GraphId>, plan: Plan,
                                             g: GraphId, depth: nat)
    requires Faithful(doc, closure, roots, plan) && g in doc.graphs
    requires forall x :: x in doc.graphs ==> ChildrenOf(doc.graphs[x]) <= doc.graphs.Keys
    ensures Unfold(WithImports(doc, plan.imports).graphs, g, depth) == Unfold(doc.graphs, g, depth)
    decreases depth
  {
    hide Faithful;
    hide WithImports;
    hide ChildrenOf;
    if depth > 0 {
      var target := WithImports(doc, plan.imports);
      KeepsDefinition(doc, closure, roots, plan, g);
      forall n | n in doc.graphs[g].nodes
        ensures UnfoldNode(target.graphs, doc.graphs[g].nodes[n], depth - 1) ==
                UnfoldNode(doc.graphs, doc.graphs[g].nodes[n], depth - 1)
      {
        if doc.graphs[g].nodes[n].kind.Instance? {
          InstanceIsChild(doc.graphs[g], n);
          OthersUnfoldAlike(doc, closure, roots, plan, doc.graphs[g].nodes[n].kind.def, depth - 1);
        }
      }
    }
  }

  lemma KeepsDefinition(doc: Document, closure: Closure, roots: seq<GraphId>, plan: Plan, g: GraphId)
    requires Faithful(doc, closure, roots, plan) && g in doc.graphs
    ensures g in WithImports(doc, plan.imports).graphs && WithImports(doc, plan.imports).graphs[g] == doc.graphs[g]
  {
    hide Chosen;
    hide Placed;
    hide FromRoots;
    hide WithImports;
  }

  lemma InstanceIsChild(graph: Definition, n: Id)
    requires n in graph.nodes && graph.nodes[n].kind.Instance?
    ensures graph.nodes[n].kind.def in ChildrenOf(graph)
  {
  }

  // ---------------------------------------------------------------------
  // References to definitions that do not exist

  /**
   * A family of definitions renamed from `source` into `target` that may refer to names `source` lacks:
   * those references keep their names.
   */
  ghost predicate Carries(source: DefMap, target: DefMap, ids: map<GraphId, GraphId>) {
    forall s :: s in ids ==>
      && s in source && ids[s] in target
      && target[ids[s]].body == source[s].body && target[ids[s]].nodes.Keys == source[s].nodes.Keys
      && (forall n :: n in source[s].nodes ==>
            target[ids[s]].nodes[n] == source[s].nodes[n].(kind := RemapNodeType(source[s].nodes[n].kind, ids)))
      && (forall c :: c in ChildrenOf(source[s]) && c in source ==> c in ids)
  }

  /** A name that `s` reaches is missing from `source` and taken in `target`. */
  ghost predicate Captured(source: DefMap, target: DefMap, s: GraphId) {
    exists x :: Reaches(Children(source), s, x) && x !in source && x in target
  }

  lemma {:induction false} UncapturedUnfoldsAlike(source: DefMap, target: DefMap, ids: map<GraphId, GraphId>,
                                                  s: GraphId, depth: nat)
    requires Carries(source, target, ids) && s in ids && !Captured(source, target, s)
    ensures Unfold(target, ids[s], depth) == Unfold(source, s, depth)
    decreases depth
  {
    if depth > 0 {
      var d, renamed := source[s], target[ids[s]];
      forall n | n in d.nodes
        ensures UnfoldNode(target, renamed.nodes[n], depth - 1) == UnfoldNode(source, d.nodes[n], depth - 1)
      {
        if d.nodes[n].kind.Instance? {
          var c := d.nodes[n].kind.def;
          assert c in ChildrenOf(d);
          ChildUncaptured(source, target, s, c);
          if c in source {
            UncapturedUnfoldsAlike(source, target, ids, c, depth - 1);
          } else {
            Refl(Children(source), c);
            assert c !in target;
          }
        }
      }
    }
  }

  lemma ChildUncaptured(source: DefMap, target: DefMap, s: GraphId, c: GraphId)
    requires s in source && c in ChildrenOf(source[s]) && !Captured(source, target, s)
    ensures !Captured(source, target, c)
  {
    var next := Children(source);
    Edge(next, s, c);
    forall x | Reaches(next, c, x)
      ensures Reaches(next, s, x)
    {
      Trans(next, s, c, x);
    }
  }

  lemma NoWayOn(next: Next, a: GraphId, p: seq<GraphId>, b: GraphId)
    requires Walk(next, a, p, b) && next(a) == {}
    ensures p == [] && a == b
  {
  }

  /** Following the references to a captured name shows the difference. */
  lemma {:induction false} CapturedUnfoldsApart(source: DefMap, target: DefMap, ids: map<GraphId, GraphId>, s: GraphId,
                                                p: seq<GraphId>, x: GraphId)
    requires Carries(source, target, ids) && s in ids && Walk(Children(source), s, p, x)
    requires x !in source && x in target
    ensures Unfold(target, ids[s], |p| + 1) != Unfold(source, s, |p| + 1)
    decreases |p|
  {
    var d, renamed, c := source[s], target[ids[s]], p[0];
    var n :| n in d.nodes && d.nodes[n].kind == Instance(c);
    if c in source {
      CapturedUnfoldsApart(source, target, ids, c, p[1..], x);
    } else {
      NoWayOn(Children(source), c, p[1..], x);
    }
    assert UnfoldNode(target, renamed.nodes[n], |p|) != UnfoldNode(source, d.nodes[n], |p|);
    var a, b := Unfold(target, ids[s], |p| + 1), Unfold(source, s, |p| + 1);
    assert a.nodes[n] != b.nodes[n];
  }

  /** What a renamed definition stands for is kept exactly when no missing name it reaches is taken in the target. */
  lemma CarriedUnfoldsAlikeExactly(source: DefMap, target: DefMap, ids: map<GraphId, GraphId>, s: GraphId)
    requires Carries(source, target, ids) && s in ids
    ensures (forall depth :: Unfold(target, ids[s], depth) == Unfold(source, s, depth)) <==>
            !Captured(source, target, s)
  {
    if Captured(source, target, s) {
      var x :| Reaches(Children(source), s, x) && x !in source && x in target;
      var p :| Walk(Children(source), s, p, x);
      CapturedUnfoldsApart(source, target, ids, s, p, x);
      hide *;
    } else {
      forall depth
        ensures Unfold(target, ids[s], depth) == Unfold(source, s, depth)
      {
        UncapturedUnfoldsAlike(source, target, ids, s, depth);
      }
      hide *;
    }
  }

  function Same(graphs: DefMap): map<GraphId, GraphId> {
    map x | x in graphs :: x
  }

  lemma SameCarries(small: DefMap, large: DefMap)
    requires forall x :: x in small ==> x in large && large[x] == small[x]
    ensures Carries(small, large, Same(small))
  {
  }

  lemma DocumentCarried(doc: Document, closure: Closure, roots: seq<GraphId>, plan: Plan)
    requires Faithful(doc, closure, roots, plan)
    ensures Carries(doc.graphs, WithImports(doc, plan.imports).graphs, Same(doc.graphs))
  {
    hide WithImports;
    hide Carries;
    hide Placed;
    SameCarries(doc.graphs, WithImports(doc, plan.imports).graphs);
  }

  /**
   * A paste keeps what a definition of the document stands for exactly when no missing name that
   * definition reaches is an id the paste imports.
   */
  lemma OthersUnfoldAlikeExactly(doc: Document, closure: Closure, roots: seq<GraphId>, plan: Plan, g: GraphId)
    requires Faithful(doc, closure, roots, plan) && g in doc.graphs
    ensures var after := WithImports(doc, plan.imports).graphs;
            (forall depth :: Unfold(after, g, depth) == Unfold(doc.graphs, g, depth)) <==>
              !Captured(doc.graphs, after, g)
  {
    hide Faithful;
    hide Carries;
    hide Captured;
    hide Unfold;
    hide WithImports;
    DocumentCarried(doc, closure, roots, plan);
    CarriedUnfoldsAlikeExactly(doc.graphs, WithImports(doc, plan.imports).graphs, Same(doc.graphs), g);
  }

  /** A dangling reference is captured by an import of its name: the instance no longer stands for nothing. */
  lemma ImportCaptures(doc: Document, closure: Closure, roots: seq<GraphId>, plan: Plan, g: GraphId, x: GraphId)
    requires Faithful(doc, closure, roots, plan) && g in doc.graphs && x in ChildrenOf(doc.graphs[g])
    requires x !in doc.graphs && x in WithImports(doc, plan.imports).graphs
    ensures Unfold(WithImports(doc, plan.imports).graphs, g, 2) != Unfold(doc.graphs, g, 2)
  {
    hide Faithful;
    hide Carries;
    hide Unfold;
    hide WithImports;
    DocumentCarried(doc, closure, roots, plan);
    assert Walk(Children(doc.graphs), g, [x], x);
    CapturedUnfoldsApart(doc.graphs, WithImports(doc, plan.imports).graphs, Same(doc.graphs), g, [x], x);
  }

  /** No part of the tree lies below the depth looked at, and none is absent. */
  predicate Whole(t: Tree) {
    t.Unfolded? && forall n :: n in t.nodes && t.nodes[n].Inside? ==> Whole(t.nodes[n].tree)
  }

  /** A planned definition's tree is finite and whole: one level for each ordered definition suffices. */
  lemma {:induction false} PastedIsWhole(closure: Closure, order: seq<GraphId>, i: nat, depth: nat)
    requires ChildrenFirst(Children(closure.graphs), order) && forall g :: g in order ==> g in closure.graphs
    requires i < |order| && depth > i
    ensures Whole(Unfold(closure.graphs, order[i], depth))
    decreases i
  {
    var d := closure.graphs[order[i]];
    var t := Unfold(closure.graphs, order[i], depth);
    forall n | n in t.nodes && t.nodes[n].Inside?
      ensures Whole(t.nodes[n].tree)
    {
      assert t.nodes[n] == UnfoldNode(closure.graphs, d.nodes[n], depth - 1) && d.nodes[n].kind.Instance?;
      var c := d.nodes[n].kind.def;
      assert c in Children(closure.graphs)(order[i]);
      assert c in order[..i];
      var j :| 0 <= j < i && order[j] == c;
      PastedIsWhole(closure, order, j, depth - 1);
    }
  }
}
