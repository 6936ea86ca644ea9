/** Inserting a blueprint: its root's cone is copied under fresh ids, with no link back to the blueprint. */
module Blueprint {
  import opened Graphs
  import opened Definitions
  import opened DefinitionPaste

  /** `bounded` names the definitions that have a boundary. */
  datatype Body = Body(graphs: DefMap, root: GraphId, bounded: set<GraphId>)

  datatype Outcome =
    | RootMissing
    | NoBoundary
    | Materialized(graphs: DefMap, rename: map<GraphId, GraphId>)

  /** The definitions a walk may meet: those of the blueprint and what they refer to. */
  function Mentioned(graphs: DefMap, root: GraphId): set<GraphId> {
    graphs.Keys + (set g, c | g in graphs && c in ChildrenOf(graphs[g]) :: c) + {root}
  }

  /** What a visit adds: everything added is reached from its start, and nothing added lacks a child. */
  ghost predicate Visits(graphs: DefMap, start: GraphId, before: set<GraphId>, after: set<GraphId>) {
    && before <= after && start in after
    && (forall g :: g in after - before ==> Reaches(Children(graphs), start, g))
    && (forall g, c :: g in after - before && c in Children(graphs)(g) ==> c in after)
  }

  ghost predicate ConeOf(graphs: DefMap, visited: set<GraphId>, cone: seq<GraphId>) {
    && (forall i, j :: 0 <= i < j < |cone| ==> cone[i] != cone[j])
    && (forall g :: g in cone <==> g in visited && g in graphs)
  }

  /** A visit of `id` with the children `done` visited: only `id` itself may still lack children. */
  ghost predicate Visiting(graphs: DefMap, id: GraphId, before: set<GraphId>, visited: set<GraphId>, done: set<GraphId>)
  {
    && before + {id} <= visited && done <= visited
    && (forall g :: g in visited - before ==> Reaches(Children(graphs), id, g))
    && (forall g, c :: g in visited - before - {id} && c in Children(graphs)(g) ==> c in visited)
  }

  lemma VisitingChild(graphs: DefMap, id: GraphId, before: set<GraphId>, visited: set<GraphId>, done: set<GraphId>,
                      child: GraphId, after: set<GraphId>)
    requires Visiting(graphs, id, before, visited, done) && Visits(graphs, child, visited, after)
             && child in Children(graphs)(id)
    ensures Visiting(graphs, id, before, after, done + {child})
  {
    forall g | g in after - before
      ensures Reaches(Children(graphs), id, g)
    {
      if g !in visited {
        Edge(Children(graphs), id, child);
        Trans(Children(graphs), id, child, g);
      }
    }
    hide Reaches;
    hide Children;
  }

  /** Depth first: a definition not met before joins the cone, a dangling reference is skipped. */
  method Visit(graphs: DefMap, root: GraphId, id: GraphId, visited0: set<GraphId>, cone0: seq<GraphId>)
    returns (visited: set<GraphId>, cone: seq<GraphId>)
    requires id in Mentioned(graphs, root) && visited0 <= Mentioned(graphs, root) && ConeOf(graphs, visited0, cone0)
    ensures visited <= Mentioned(graphs, root) && ConeOf(graphs, visited, cone)
    ensures Visits(graphs, id, visited0, visited)
    ensures cone0 <= cone && (id !in visited0 && id in graphs ==> cone0 + [id] <= cone)
    decreases |Mentioned(graphs, root) - visited0|, 1
  {
    assert id in visited0 ==> Visits(graphs, id, visited0, visited0);
    assert id in graphs ==> Children(graphs)(id) == ChildrenOf(graphs[id]);
    hide *;
    if id in visited0 {
      return visited0, cone0;
    }
    visited, cone := visited0 + {id}, cone0;
    VisitStart(graphs, root, id, visited0, cone0);
    if id !in graphs {
      return;
    }
    cone := cone + [id];
    visited, cone := VisitChildren(graphs, root, id, visited0, visited, cone);
    VisitDone(graphs, id, visited0, visited);
  }

  /** The children of a definition just entered, one after another. */
  method VisitChildren(graphs: DefMap, root: GraphId, id: GraphId, ghost visited0: set<GraphId>, visited1: set<GraphId>,
                       cone1: seq<GraphId>)
    returns (visited: set<GraphId>, cone: seq<GraphId>)
    requires id in graphs && id in Mentioned(graphs, root) && id !in visited0
             && Children(graphs)(id) == ChildrenOf(graphs[id])
    requires ChildrenOf(graphs[id]) <= Mentioned(graphs, root) && visited1 <= Mentioned(graphs, root)
             && ConeOf(graphs, visited1, cone1)
    requires Visiting(graphs, id, visited0, visited1, {})
    ensures visited <= Mentioned(graphs, root) && ConeOf(graphs, visited, cone)
    ensures Visiting(graphs, id, visited0, visited, Children(graphs)(id)) && cone1 <= cone
    decreases |Mentioned(graphs, root) - visited0|, 0
  {
    hide *;
    visited, cone := visited1, cone1;
    var children := ChildrenOf(graphs[id]);
    var rest := children;
    assert children - rest == {};
    while rest != {}
      invariant rest <= children && visited <= Mentioned(graphs, root) && ConeOf(graphs, visited, cone)
      invariant Visiting(graphs, id, visited0, visited, children - rest) && cone1 <= cone
      decreases |rest|
    {
      var child :| child in rest;
      VisitingGrew(graphs, root, id, visited0, visited, children - rest);
      ghost var before := visited;
      visited, cone := Visit(graphs, root, child, visited, cone);
      VisitingChild(graphs, id, visited0, before, children - rest, child, visited);
      assert children - (rest - {child}) == children - rest + {child};
      rest := rest - {child};
    }
    assert children - rest == children;
  }

  lemma VisitingGrew(graphs: DefMap, root: GraphId, id: GraphId, before: set<GraphId>, visited: set<GraphId>,
                     done: set<GraphId>)
    requires Visiting(graphs, id, before, visited, done) && id in Mentioned(graphs, root) && id !in before
    ensures |Mentioned(graphs, root) - visited| < |Mentioned(graphs, root) - before|
  {
    hide Reaches;
    hide Mentioned;
    SmallerRest(Mentioned(graphs, root), before, visited, id);
  }

  lemma SmallerRest(all: set<GraphId>, before: set<GraphId>, after: set<GraphId>, id: GraphId)
    requires id in all && id !in before && before + {id} <= after
    ensures |all - after| < |all - before|
  {
    var removed := (all - before) - (all - after);
    assert id in removed;
    assert all - before == (all - after) + removed;
  }

  lemma VisitStart(graphs: DefMap, root: GraphId, id: GraphId, before: set<GraphId>, cone: seq<GraphId>)
    requires id in Mentioned(graphs, root) && before <= Mentioned(graphs, root) && ConeOf(graphs, before, cone)
             && id !in before
    ensures before + {id} <= Mentioned(graphs, root) && Visiting(graphs, id, before, before + {id}, {})
    ensures if id in graphs
            then ConeOf(graphs, before + {id}, cone + [id]) && ChildrenOf(graphs[id]) <= Mentioned(graphs, root)
            else ConeOf(graphs, before + {id}, cone) && Visits(graphs, id, before, before + {id})
  {
    Refl(Children(graphs), id);
    hide Reaches;
  }

  lemma VisitDone(graphs: DefMap, id: GraphId, before: set<GraphId>, visited: set<GraphId>)
    requires Visiting(graphs, id, before, visited, Children(graphs)(id))
    ensures Visits(graphs, id, before, visited)
  {
    hide Reaches;
    hide Children;
  }

  /** The smallest unused generated id from the cursor on. */
  method NextId(used: set<GraphId>, n: nat) returns (id: GraphId, n': nat)
    requires TakenBelow(n, used)
    ensures id == Generated(n') && id !in used && TakenBelow(n', used) && n <= n'
  {
    n' := n;
    CursorBounded(n, used);
    while Generated(n') in used
      invariant TakenBelow(n', used) && n <= n' <= |used|
      decreases |used| - n'
    {
      n' := n' + 1;
      CursorBounded(n', used);
    }
    id := Generated(n');
  }

  /** The generated ids before a new one are taken, or given already. */
  ghost predicate FirstFree(target: DefMap, rename: map<GraphId, GraphId>, id: GraphId) {
    id.Generated? && forall i :: 0 <= i < id.ordinal ==> Generated(i) in target || Used(rename, Generated(i))
  }

  predicate Before(a: GraphId, b: GraphId) {
    a.Generated? && b.Generated? && a.ordinal < b.ordinal
  }

  /** What holds once the definitions of `given` have their new ids. */
  ghost predicate Given(target: DefMap, given: seq<GraphId>, rename: map<GraphId, GraphId>, used: set<GraphId>, n: nat)
  {
    && rename.Keys == (set g | g in given) && Injective(rename) && target.Keys <= used && TakenBelow(n, used)
    && (forall g :: g in rename ==> rename[g] !in target && rename[g] in used)
    && (forall x :: x in used ==> x in target || Used(rename, x))
    && (forall g :: g in rename ==> FirstFree(target, rename, rename[g]) && rename[g].ordinal <= n)
    && (forall j, k :: 0 <= j < k < |given| ==> Before(rename[given[j]], rename[given[k]]))
  }

  /** Every definition of the cone gets the next id that the target has free, in order. */
  method RenameCone(target: DefMap, cone: seq<GraphId>) returns (rename: map<GraphId, GraphId>)
    requires forall i, j :: 0 <= i < j < |cone| ==> cone[i] != cone[j]
    ensures rename.Keys == (set g | g in cone) && Injective(rename) && forall g :: g in rename ==> rename[g] !in target
    ensures forall g :: g in rename ==> FirstFree(target, rename, rename[g])
    ensures forall i, j :: 0 <= i < j < |cone| ==> Before(rename[cone[i]], rename[cone[j]])
  {
    rename := map[];
    var used, n := target.Keys, 0;
    assert cone[..0] == [] && Given(target, cone[..0], rename, used, n);
    for i := 0 to |cone|
      invariant Given(target, cone[..i], rename, used, n)
    {
      hide FirstFree;
      hide Used;
      hide Injective;
      var id, n' := NextId(used, n);
      assert cone[..i + 1] == cone[..i] + [cone[i]] && cone[i] !in cone[..i];
      GivesNext(target, cone[..i], rename, used, n, n', cone[i]);
      rename, used, n := rename[cone[i] := id], used + {id}, n';
    }
    assert cone[..|cone|] == cone;
  }

  /** Giving the next free id keeps what was given. */
  lemma GivesNext(target: DefMap, given: seq<GraphId>, rename: map<GraphId, GraphId>, used: set<GraphId>, n: nat,
                  n': nat, s: GraphId)
    requires Given(target, given, rename, used, n) && s !in given
    requires n <= n' && Generated(n') !in used && TakenBelow(n', used)
    ensures Given(target, given + [s], rename[s := Generated(n')], used + {Generated(n')}, n')
  {
    hide Used;
    hide FirstFree;
    hide Injective;
    hide Before;
    GivesUsed(rename, used, target, s, n');
    GivesFirstFree(target, rename, used, n, n', s);
    GivesBefore(target, given, rename, used, n, n', s);
    GivesInjective(rename, used, s, n');
  }

  lemma GivesUsed(rename: map<GraphId, GraphId>, used: set<GraphId>, target: DefMap, s: GraphId, n: nat)
    requires s !in rename && forall x :: x in used ==> x in target || Used(rename, x)
    ensures forall x :: x in used + {Generated(n)} ==> x in target || Used(rename[s := Generated(n)], x)
    ensures forall x :: Used(rename, x) ==> Used(rename[s := Generated(n)], x)
  {
    var rename' := rename[s := Generated(n)];
    assert rename'[s] == Generated(n);
    forall x | Used(rename, x)
      ensures Used(rename', x)
    {
      UsedMore(rename, s, Generated(n), x);
    }
  }

  lemma GivesFirstFree(target: DefMap, rename: map<GraphId, GraphId>, used: set<GraphId>, n: nat, n': nat, s: GraphId)
    requires s !in rename && n <= n' && TakenBelow(n', used)
    requires forall x :: x in used ==> x in target || Used(rename, x)
    requires forall g :: g in rename ==> FirstFree(target, rename, rename[g]) && rename[g].ordinal <= n
    ensures var rename' := rename[s := Generated(n')];
            forall g :: g in rename' ==> FirstFree(target, rename', rename'[g]) && rename'[g].ordinal <= n'
  {
    hide Used;
    GivesUsed(rename, used, target, s, n');
    assert forall i :: 0 <= i < n' ==> Generated(i) in used;
  }

  lemma GivesBefore(target: DefMap, given: seq<GraphId>, rename: map<GraphId, GraphId>, used: set<GraphId>, n: nat,
                    n': nat, s: GraphId)
    requires Given(target, given, rename, used, n) && s !in given && n <= n' && Generated(n') !in used
    ensures forall j, k :: 0 <= j < k < |given + [s]| ==>
                             Before(rename[s := Generated(n')][(given + [s])[j]],
                                    rename[s := Generated(n')][(given + [s])[k]])
  {
    hide Used;
    hide Injective;
    forall j | 0 <= j < |given|
      ensures Before(rename[given[j]], Generated(n'))
    {
      assert given[j] in rename && FirstFree(target, rename, rename[given[j]]);
      assert rename[given[j]] != Generated(n');
    }
  }

  lemma GivesInjective(rename: map<GraphId, GraphId>, used: set<GraphId>, s: GraphId, n: nat)
    requires Injective(rename) && Generated(n) !in used && forall g :: g in rename ==> rename[g] in used
    ensures Injective(rename[s := Generated(n)])
  {
  }

  /** What an insertion promises: the whole cone of the root, under fresh distinct ids, rewritten consistently. */
  ghost predicate Inserted(target: DefMap, body: Body, graphs: DefMap, rename: map<GraphId, GraphId>) {
    && (forall g :: g in rename <==> g in body.graphs && Reaches(Children(body.graphs), body.root, g))
    && Injective(rename) && body.root in rename
    && (forall x :: x in graphs ==> x !in target)
    && (forall g ::
       g in rename ==> rename[g] in graphs && graphs[rename[g]] == RewriteDefinition(body.graphs[g], rename[g], rename))
    && (forall x :: x in graphs ==> Used(rename, x))
    && (forall g :: g in rename ==> FirstFree(target, rename, rename[g]))
    && (forall g :: g in rename && g != body.root ==> Before(rename[body.root], rename[g]))
  }

  method MaterializeBlueprint(target: DefMap, body: Body) returns (outcome: Outcome)
    ensures outcome.RootMissing? <==> body.root !in body.graphs
    ensures outcome.NoBoundary? <==> body.root in body.graphs && body.root !in body.bounded
    ensures outcome.Materialized? ==> Inserted(target, body, outcome.graphs, outcome.rename)
  {
    if body.root !in body.graphs {
      return RootMissing;
    }
    if body.root !in body.bounded {
      return NoBoundary;
    }
    var visited, cone := Visit(body.graphs, body.root, body.root, {}, []);
    ConeExact(body, visited, cone);
    var rename := RenameCone(target, cone);
    hide *;
    var graphs := CopyCone(body.graphs, cone, rename);
    CopyInserted(target, body, cone, rename, graphs);
    return Materialized(graphs, rename);
  }

  /** The copies of the cone's definitions, under their new ids. */
  method CopyCone(source: DefMap, cone: seq<GraphId>, rename: map<GraphId, GraphId>) returns (graphs: DefMap)
    requires forall g :: g in cone ==> g in rename && g in source
    requires Injective(rename)
    ensures forall g ::
            g in cone ==> rename[g] in graphs && graphs[rename[g]] == RewriteDefinition(source[g], rename[g], rename)
    ensures forall x :: x in graphs ==> Used(rename, x)
  {
    graphs := map[];
    hide RewriteDefinition;
    for i := 0 to |cone|
      invariant forall g ::
                g in cone[..i] ==>
                  rename[g] in graphs && graphs[rename[g]] == RewriteDefinition(source[g], rename[g], rename)
      invariant forall x :: x in graphs ==> Used(rename, x)
    {
      assert cone[..i + 1] == cone[..i] + [cone[i]] && cone[i] in cone;
      graphs := graphs[rename[cone[i]] := RewriteDefinition(source[cone[i]], rename[cone[i]], rename)];
    }
    assert cone[..|cone|] == cone;
  }

  lemma CopyInserted(target: DefMap, body: Body, cone: seq<GraphId>, rename: map<GraphId, GraphId>, graphs: DefMap)
    requires body.root in body.graphs
    requires forall g :: g in cone <==> g in body.graphs && Reaches(Children(body.graphs), body.root, g)
    requires rename.Keys == (set g | g in cone) && Injective(rename) && forall g :: g in rename ==> rename[g] !in target
    requires forall g ::
             g in cone ==>
               rename[g] in graphs && graphs[rename[g]] == RewriteDefinition(body.graphs[g], rename[g], rename)
    requires forall x :: x in graphs ==> Used(rename, x)
    requires forall g :: g in rename ==> FirstFree(target, rename, rename[g])
    requires forall i, j :: 0 <= i < j < |cone| ==> Before(rename[cone[i]], rename[cone[j]])
    requires |cone| > 0 && cone[0] == body.root
    ensures Inserted(target, body, graphs, rename)
  {
    Refl(Children(body.graphs), body.root);
    hide Reaches;
    hide Children;
    hide RewriteDefinition;
    hide FirstFree;
    assert forall g :: g in rename <==> g in cone;
    assert forall g :: g in cone && g != body.root ==> exists j :: 0 < j < |cone| && cone[j] == g;
  }

  lemma ConeExact(body: Body, visited: set<GraphId>, cone: seq<GraphId>)
    requires Visits(body.graphs, body.root, {}, visited) && ConeOf(body.graphs, visited, cone)
    ensures forall g :: g in cone <==> g in body.graphs && Reaches(Children(body.graphs), body.root, g)
  {
    var next := Children(body.graphs);
    forall g | Reaches(next, body.root, g)
      ensures g in visited
    {
      Stays(next, visited, body.root, g);
    }
    hide Reaches;
    hide Children;
  }

  /** An inserted copy unfolds to what the blueprint's definition unfolds to, for a body without dangling references. */
  lemma InsertedUnfoldsAlike(target: DefMap, body: Body, graphs: DefMap, rename: map<GraphId, GraphId>, g: GraphId,
                             depth: nat)
    requires Inserted(target, body, graphs, rename) && g in rename
    requires forall x :: x in body.graphs ==> ChildrenOf(body.graphs[x]) <= body.graphs.Keys
    ensures Unfold(target + graphs, rename[g], depth) == Unfold(body.graphs, g, depth)
  {
    forall s | s in rename
      ensures ChildrenOf(body.graphs[s]) <= rename.Keys
    {
      forall c | c in ChildrenOf(body.graphs[s])
        ensures c in rename
      {
        Snoc(Children(body.graphs), body.root, s, c);
      }
    }
    assert Renames(body.graphs, target + graphs, rename) by {
      hide RewriteDefinition;
      hide ChildrenOf;
      hide Reaches;
    }
    RenamedUnfoldsAlike(body.graphs, target + graphs, rename, g, depth);
  }

  lemma InsertedCarries(target: DefMap, body: Body, graphs: DefMap, rename: map<GraphId, GraphId>)
    requires Inserted(target, body, graphs, rename)
    ensures Carries(body.graphs, target + graphs, rename)
  {
    hide Injective;
    hide FirstFree;
    forall s, c | s in rename && c in ChildrenOf(body.graphs[s]) && c in body.graphs
      ensures c in rename
    {
      Snoc(Children(body.graphs), body.root, s, c);
    }
    hide Reaches;
  }

  /**
   * An inserted copy unfolds to what the blueprint's definition unfolds to exactly when no name that
   * definition reaches and the blueprint lacks is taken in the target.
   */
  lemma InsertedUnfoldsAlikeExactly(target: DefMap, body: Body, graphs: DefMap, rename: map<GraphId, GraphId>,
                                    g: GraphId)
    requires Inserted(target, body, graphs, rename) && g in rename
    ensures (forall depth :: Unfold(target + graphs, rename[g], depth) == Unfold(body.graphs, g, depth))
            <==> !Captured(body.graphs, target + graphs, g)
  {
    hide *;
    InsertedCarries(target, body, graphs, rename);
    CarriedUnfoldsAlikeExactly(body.graphs, target + graphs, rename, g);
  }
}
