/** The document check that no subgraph definition contains itself. */
module Recursion {
  import opened Graphs
  import opened Definitions

  /** References to definitions that exist. */
  function Refs(graphs: DefMap): Next {
    (g: GraphId) => if g in graphs then set c | c in ChildrenOf(graphs[g]) && c in graphs else {}
  }

  ghost predicate SelfContained(next: Next) {
    exists g :: ReachesPlus(next, g, g)
  }

  /** Running visits reach whatever is visited next. */
  ghost predicate Above(next: Next, marks: map<GraphId, Mark>, id: GraphId) {
    forall v :: v in marks && marks[v] == Visiting ==> ReachesPlus(next, v, id)
  }

  /** While nothing was reported, finished definitions form a children-first order. */
  ghost predicate Sound(known: set<GraphId>, next: Next, marks: map<GraphId, Mark>, order: seq<GraphId>, clean: bool) {
    && marks.Keys <= known
    && (clean ==> ChildrenFirst(next, order) && forall g :: g in order <==> g in marks && marks[g] == Visited)
    && (!clean ==> SelfContained(next))
  }

  ghost function Running(marks: map<GraphId, Mark>): set<GraphId> {
    set g | g in marks && marks[g] == Visiting
  }

  /** What a visit leaves alone: marks are only added, and the running visits run on. */
  ghost predicate Onward(before: map<GraphId, Mark>, after: map<GraphId, Mark>) {
    before.Keys <= after.Keys && Running(after) == Running(before)
  }

  lemma Begin(known: set<GraphId>, next: Next, marks: map<GraphId, Mark>, order: seq<GraphId>, clean: bool, id: GraphId)
    requires Sound(known, next, marks, order, clean) && id in known && id !in marks
    requires forall v :: v in Running(marks) ==> ReachesPlus(next, v, id)
    ensures Sound(known, next, marks[id := Visiting], order, clean)
    ensures id in Running(marks[id := Visiting])
    ensures forall v :: v in Running(marks[id := Visiting]) && v != id ==> ReachesPlus(next, v, id)
    ensures |known - marks[id := Visiting].Keys| < |known - marks.Keys|
  {
    Fewer(known, marks, id);
    hide ChildrenFirst;
    hide ReachesPlus;
  }

  lemma AboveChild(next: Next, m0: map<GraphId, Mark>, marks: map<GraphId, Mark>, id: GraphId, child: GraphId)
    requires Onward(m0, marks) && forall v :: v in Running(m0) && v != id ==> ReachesPlus(next, v, id)
    requires child in next(id)
    ensures Above(next, marks, child)
  {
    hide ReachesPlus;
    hide Reaches;
    Edge(next, id, child);
    forall v | v in marks && marks[v] == Visiting
      ensures ReachesPlus(next, v, child)
    {
      assert v in Running(marks);
      if v != id {
        PlusTrans(next, v, id, child);
      }
    }
  }

  lemma End(known: set<GraphId>, next: Next, marks: map<GraphId, Mark>, order: seq<GraphId>, clean: bool, id: GraphId,
            before: map<GraphId, Mark>)
    requires Sound(known, next, marks, order, clean) && id !in before && Onward(before[id := Visiting], marks)
    requires clean ==> forall c :: c in next(id) ==> c in order
    ensures Sound(known, next, marks[id := Visited], order + [id], clean) && Onward(before, marks[id := Visited])
  {
    assert id in Running(before[id := Visiting]);
    assert Running(marks[id := Visited]) == Running(marks) - {id}
      && Running(before[id := Visiting]) == Running(before) + {id};
    if clean {
      EndOrder(next, order, id);
    }
    hide ChildrenFirst;
  }

  lemma EndOrder(next: Next, order: seq<GraphId>, id: GraphId)
    requires ChildrenFirst(next, order) && id !in order && forall c :: c in next(id) ==> c in order
    ensures ChildrenFirst(next, order + [id])
  {
    var order' := order + [id];
    forall i, c | 0 <= i < |order'| && c in next(order'[i])
      ensures c in order'[..i]
    {
      if i < |order| {
        assert order'[..i] == order[..i];
      } else {
        assert order'[..i] == order;
      }
    }
  }

  class RecursionCheck {
    const graphs: DefMap
    var marks: map<GraphId, Mark>
    var reports: nat
    ghost var order: seq<GraphId>

    ghost predicate Valid()
      reads this
    {
      Sound(graphs.Keys, Refs(graphs), marks, order, reports == 0)
    }

    constructor (graphs: DefMap)
      ensures this.graphs == graphs && Valid() && marks == map[] && reports == 0 && order == []
    {
      this.graphs := graphs;
      marks, reports, order := map[], 0, [];
    }

    /** One depth-first visit; a definition still being visited is reported. */
    method Visit(id: GraphId)
      requires Valid() && id in graphs && Above(Refs(graphs), marks, id)
      modifies this
      decreases |graphs.Keys - marks.Keys|, 0
      ensures Valid() && reports >= old(reports) && Onward(old(marks), marks)
      ensures reports == 0 ==> id in order && forall g :: g in old(order) ==> g in order
    {
      hide Sound;
      hide Above;
      hide Onward;
      hide Running;
      hide Refs;
      hide ReachesPlus;
      AlreadyDone(graphs.Keys, Refs(graphs), marks, order, reports == 0, id);
      RunningOnes(Refs(graphs), marks, id);
      if id in marks && marks[id] == Visited {
        return;
      }
      if id in marks {
        Remet(graphs.Keys, Refs(graphs), marks, order, reports == 0, id);
        reports := reports + 1;
        return;
      }
      Begin(graphs.Keys, Refs(graphs), marks, order, reports == 0, id);
      ghost var before := marks;
      marks := marks[id := Visiting];
      VisitAll(id);
      End(graphs.Keys, Refs(graphs), marks, order, reports == 0, id, before);
      marks := marks[id := Visited];
      order := order + [id];
    }

    /** The references of the definition being visited, in any order. */
    method VisitAll(id: GraphId)
      requires Valid() && id in graphs && id in Running(marks)
      requires forall v :: v in Running(marks) && v != id ==> ReachesPlus(Refs(graphs), v, id)
      modifies this
      decreases |graphs.Keys - marks.Keys|, 1
      ensures Valid() && reports >= old(reports) && Onward(old(marks), marks)
      ensures reports == 0 ==> forall g :: g in old(order) || g in Refs(graphs)(id) ==> g in order
    {
      var children := set c | c in ChildrenOf(graphs[id]) && c in graphs;
      assert children == Refs(graphs)(id) && children <= graphs.Keys;
      var rest := children;
      ghost var m0, o0 := marks, order;
      assert Onward(m0, marks);
      hide *;
      while rest != {}
        invariant rest <= children && Valid() && reports >= old(reports) && Onward(m0, marks)
        invariant reports == 0 ==> forall g :: g in o0 || g in children - rest ==> g in order
        decreases |rest|
      {
        var child :| child in rest;
        AboveChild(Refs(graphs), m0, marks, id, child);
        Fewest(graphs.Keys, m0, marks);
        ghost var m1 := marks;
        Visit(child);
        OnwardTwice(m0, m1, marks);
        rest := rest - {child};
      }
    }

    /** Every definition is a root; nothing is reported exactly when none contains itself. */
    method Run()
      requires Valid() && marks == map[] && reports == 0 && order == []
      modifies this
      ensures reports == 0 <==> Acyclic(Refs(graphs))
    {
      var rest := graphs.Keys;
      assert Onward(map[], marks);
      hide *;
      while rest != {}
        invariant rest <= graphs.Keys && Valid() && Onward(map[], marks)
        invariant reports == 0 ==> forall g :: g in graphs.Keys - rest ==> g in order
        decreases |rest|
      {
        var id :| id in rest;
        NothingAbove(Refs(graphs), marks, id);
        ghost var m1 := marks;
        Visit(id);
        OnwardTwice(map[], m1, marks);
        rest := rest - {id};
      }
      Verdict(graphs, marks, order, reports == 0);
    }
  }

  lemma AlreadyDone(known: set<GraphId>, next: Next, marks: map<GraphId, Mark>, order: seq<GraphId>, clean: bool,
                    id: GraphId)
    requires Sound(known, next, marks, order, clean)
    ensures Onward(marks, marks) && (clean && id in marks && marks[id] == Visited ==> id in order)
  {
    hide ChildrenFirst;
  }

  lemma RunningOnes(next: Next, marks: map<GraphId, Mark>, id: GraphId)
    requires Above(next, marks, id)
    ensures forall v :: v in Running(marks) ==> ReachesPlus(next, v, id)
  {
    hide ReachesPlus;
  }

  lemma Remet(known: set<GraphId>, next: Next, marks: map<GraphId, Mark>, order: seq<GraphId>, clean: bool, id: GraphId)
    requires Sound(known, next, marks, order, clean) && id in marks && marks[id] != Visited
    requires forall v :: v in Running(marks) ==> ReachesPlus(next, v, id)
    ensures Sound(known, next, marks, order, false)
  {
    assert id in Running(marks);
    hide ReachesPlus;
    hide ChildrenFirst;
  }

  lemma Fewest(known: set<GraphId>, before: map<GraphId, Mark>, after: map<GraphId, Mark>)
    requires Onward(before, after)
    ensures |known - after.Keys| <= |known - before.Keys|
  {
    assert known - before.Keys == (known - after.Keys) + ((known - before.Keys) - (known - after.Keys));
  }

  lemma OnwardTwice(a: map<GraphId, Mark>, b: map<GraphId, Mark>, c: map<GraphId, Mark>)
    requires Onward(a, b) && Onward(b, c)
    ensures Onward(a, c)
  {
  }

  lemma NothingAbove(next: Next, marks: map<GraphId, Mark>, id: GraphId)
    requires Onward(map[], marks)
    ensures Above(next, marks, id)
  {
    assert forall v :: v in marks && marks[v] == Visiting ==> v in Running(marks);
    hide ReachesPlus;
  }

  lemma Verdict(graphs: DefMap, marks: map<GraphId, Mark>, order: seq<GraphId>, clean: bool)
    requires Sound(graphs.Keys, Refs(graphs), marks, order, clean)
    requires clean ==> forall g :: g in graphs ==> g in order
    ensures clean <==> Acyclic(Refs(graphs))
  {
    var next := Refs(graphs);
    if clean {
      RankFalls(next, order);
      var s := set g | g in order;
      forall g
        ensures !ReachesPlus(next, g, g)
      {
        if g in graphs {
          hide ReachesPlus;
          RankAcyclic(next, Rank(order), s, g);
        }
      }
    }
  }

  /** Whether the document has no recursive definition. */
  method CheckNoRecursion(graphs: DefMap) returns (ok: bool)
    ensures ok <==> Acyclic(Refs(graphs))
  {
    var check := new RecursionCheck(graphs);
    check.Run();
    ok := check.reports == 0;
  }

  /** In a document that passes and has no dangling reference, a definition order is never refused. */
  lemma CheckedIsWellFounded(graphs: DefMap, roots: seq<GraphId>)
    requires Acyclic(Refs(graphs))
    requires forall g :: g in graphs ==> ChildrenOf(graphs[g]) <= graphs.Keys
    requires forall r :: r in roots ==> r in graphs
    ensures WellFounded(graphs.Keys, Children(graphs), roots)
  {
    var next := Children(graphs);
    assert forall g :: next(g) == Refs(graphs)(g);
    forall g | FromRoots(next, roots, g)
      ensures g in graphs && !ReachesPlus(next, g, g)
    {
      var k :| 0 <= k < |roots| && Reaches(next, roots[k], g);
      Stays(next, graphs.Keys, roots[k], g);
      if ReachesPlus(next, g, g) {
        PlusMono(next, Refs(graphs), g, g);
      }
    }
  }
}
