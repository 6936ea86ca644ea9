/** Subgraph definitions: what they hold, what they refer to, and their children-first order. */
module Definitions {
  import opened Identity
  import opened Graphs

  /** Every string is either a generated id, `g` with a decimal ordinal, or some other name. */
  datatype GraphId = Generated(ordinal: nat) | Named(name: Id)

  /** `#id` names an instance of the definition `id`; any other type is plain. */
  datatype NodeType = Instance(def: GraphId) | Plain(plain: Id)

  datatype Node = Node(kind: NodeType, body: Id)

  /** Everything but the id and the node types is opaque. */
  datatype Definition = Definition(id: GraphId, nodes: map<Id, Node>, body: Id)

  type DefMap = map<GraphId, Definition>

  type Next = GraphId -> set<GraphId>

  function SubgraphDefIdOf(t: NodeType): Option<GraphId> {
    match t
    case Instance(d) => Some(d)
    case Plain(_) => None
  }

  function ChildrenOf(d: Definition): set<GraphId> {
    set n | n in d.nodes && d.nodes[n].kind.Instance? :: d.nodes[n].kind.def
  }

  function Children(graphs: DefMap): Next {
    (g: GraphId) => if g in graphs then ChildrenOf(graphs[g]) else {}
  }

  ghost predicate FromRoots(next: Next, roots: seq<GraphId>, g: GraphId) {
    exists k :: 0 <= k < |roots| && Reaches(next, roots[k], g)
  }

  /** Every definition the roots reach exists and does not contain itself. */
  ghost predicate WellFounded(known: set<GraphId>, next: Next, roots: seq<GraphId>) {
    forall g :: FromRoots(next, roots, g) ==> g in known && !ReachesPlus(next, g, g)
  }

  ghost predicate ChildrenFirst(next: Next, order: seq<GraphId>) {
    && (forall i, j :: 0 <= i < j < |order| ==> order[i] != order[j])
    && (forall i, c :: 0 <= i < |order| && c in next(order[i]) ==> c in order[..i])
  }

  datatype Mark = Visiting | Visited
  datatype Frame = Frame(id: GraphId, exit: bool)

  ghost predicate ExitAt(stack: seq<Frame>, i: int) {
    0 <= i < |stack| && stack[i].exit
  }

  ghost predicate OnStack(stack: seq<Frame>, g: GraphId, above: int) {
    exists j :: above < j < |stack| && 0 <= j && stack[j].id == g
  }

  /** What the marks say of the order and the stack. */
  ghost predicate Marked(known: set<GraphId>, marks: map<GraphId, Mark>, order: seq<GraphId>, stack: seq<Frame>) {
    && marks.Keys <= known
    && (forall g :: g in order <==> g in marks && marks[g] == Visited)
    && (forall i :: ExitAt(stack, i) ==> stack[i].id in marks && marks[stack[i].id] == Visiting)
    && (forall g :: g in marks && marks[g] == Visiting ==> Frame(g, true) in stack)
    && (forall i, j :: ExitAt(stack, i) && ExitAt(stack, j) && i < j ==> stack[i].id != stack[j].id)
  }

  /** Frames are reached from the root, and what stands above an exit frame is contained in its definition. */
  ghost predicate Nested(next: Next, root: GraphId, stack: seq<Frame>) {
    && (forall j :: 0 <= j < |stack| ==> Reaches(next, root, stack[j].id))
    && (forall i, j :: ExitAt(stack, i) && i < j < |stack| ==> ReachesPlus(next, stack[i].id, stack[j].id))
  }

  /** The children of a definition in progress are ordered already or still above it. */
  ghost predicate Covered(next: Next, order: seq<GraphId>, stack: seq<Frame>) {
    forall i, c :: ExitAt(stack, i) && c in next(stack[i].id) ==> c in order || OnStack(stack, c, i)
  }

  ghost predicate Pending(root: GraphId, order: seq<GraphId>, stack: seq<Frame>) {
    root in order || OnStack(stack, root, -1)
  }

  lemma OnStackPop(rest: seq<Frame>, f: Frame, g: GraphId, above: int)
    requires OnStack(rest + [f], g, above)
    ensures g == f.id || OnStack(rest, g, above)
  {
    var j :| above < j < |rest + [f]| && 0 <= j && (rest + [f])[j].id == g;
    if j < |rest| {
      assert rest[j].id == g;
    }
  }

  /** Popping a frame whose definition is ordered, or becomes so, loses nothing. */
  lemma Pop(next: Next, root: GraphId, order: seq<GraphId>, order': seq<GraphId>, rest: seq<Frame>, f: Frame)
    requires Covered(next, order, rest + [f]) && Pending(root, order, rest + [f])
    requires f.id in order' && forall g :: g in order ==> g in order'
    ensures Covered(next, order', rest) && Pending(root, order', rest)
  {
    var stack := rest + [f];
    forall i, c | ExitAt(rest, i) && c in next(rest[i].id)
      ensures c in order' || OnStack(rest, c, i)
    {
      assert ExitAt(stack, i) && stack[i] == rest[i];
      hide OnStack;
      if c !in order {
        OnStackPop(rest, f, c, i);
      }
    }
    hide OnStack;
    if root !in order {
      OnStackPop(rest, f, root, -1);
    }
  }

  lemma PopNested(next: Next, root: GraphId, rest: seq<Frame>, f: Frame)
    requires Nested(next, root, rest + [f])
    ensures Nested(next, root, rest)
    ensures Reaches(next, root, f.id) && forall i :: ExitAt(rest, i) ==> ReachesPlus(next, rest[i].id, f.id)
  {
    var stack := rest + [f];
    assert stack[|rest|] == f;
    assert forall i :: 0 <= i < |rest| ==> stack[i] == rest[i];
    assert forall i :: ExitAt(rest, i) ==> ExitAt(stack, i);
    hide Reaches;
    hide ReachesPlus;
    hide ExitAt;
    forall j | 0 <= j < |rest|
      ensures Reaches(next, root, rest[j].id)
    {
      assert stack[j] == rest[j];
    }
  }

  lemma SkipMarked(known: set<GraphId>, marks: map<GraphId, Mark>, order: seq<GraphId>, rest: seq<Frame>, g: GraphId)
    requires Marked(known, marks, order, rest + [Frame(g, false)])
    ensures Marked(known, marks, order, rest)
  {
    assert forall i :: ExitAt(rest, i) ==> ExitAt(rest + [Frame(g, false)], i);
  }

  /** Leaving a definition: its mark and the order move on together. */
  lemma LeaveMarked(known: set<GraphId>, marks: map<GraphId, Mark>, order: seq<GraphId>, rest: seq<Frame>, g: GraphId)
    requires Marked(known, marks, order, rest + [Frame(g, true)])
    ensures Marked(known, marks[g := Visited], order + [g], rest) && g !in order && g in known
  {
    var stack := rest + [Frame(g, true)];
    assert ExitAt(stack, |rest|);
    assert forall i :: ExitAt(rest, i) ==> ExitAt(stack, i) && stack[i] == rest[i];
  }

  lemma LeaveOrder(next: Next, order: seq<GraphId>, rest: seq<Frame>, g: GraphId)
    requires ChildrenFirst(next, order) && Covered(next, order, rest + [Frame(g, true)]) && g !in order
    ensures ChildrenFirst(next, order + [g])
  {
    var stack := rest + [Frame(g, true)];
    assert ExitAt(stack, |rest|) && stack[|rest|].id == g;
    assert forall c :: !OnStack(stack, c, |rest|);
    var order' := order + [g];
    forall i, c | 0 <= i < |order'| && c in next(order'[i])
      ensures c in order'[..i]
    {
      if i < |order| {
        assert order'[..i] == order[..i];
      } else {
        assert order'[..i] == order;
      }
    }
  }

  /** The exit frames after entering: the old ones and the new one. */
  lemma EnterExits(rest: seq<Frame>, g: GraphId, frames: seq<Frame>)
    requires forall f :: f in frames ==> !f.exit
    ensures var after := rest + [Frame(g, true)] + frames;
            forall i ::
              ExitAt(after, i) ==>
                i == |rest| || (i < |rest| && ExitAt(rest, i) && ExitAt(rest + [Frame(g, false)], i)
                  && rest[i] == after[i])
  {
    var after := rest + [Frame(g, true)] + frames;
    forall i | |rest| < i < |after|
      ensures !after[i].exit
    {
      assert after[i] == frames[i - |rest| - 1];
    }
  }

  /** Entering a definition: its exit frame replaces the entry frame, under one frame for each child. */
  lemma EnterMarked(known: set<GraphId>, marks: map<GraphId, Mark>, order: seq<GraphId>, rest: seq<Frame>, g: GraphId,
                    frames: seq<Frame>)
    requires Marked(known, marks, order, rest + [Frame(g, false)]) && g in known && g !in marks
    requires forall f :: f in frames ==> !f.exit
    ensures Marked(known, marks[g := Visiting], order, rest + [Frame(g, true)] + frames)
  {
    var before, after := rest + [Frame(g, false)], rest + [Frame(g, true)] + frames;
    assert after[|rest|] == Frame(g, true);
    EnterExits(rest, g, frames);
    forall x | x in marks && marks[x] == Visiting
      ensures Frame(x, true) in after
    {
      assert Frame(x, true) in before;
    }
  }

  lemma EnterNested(next: Next, root: GraphId, rest: seq<Frame>, g: GraphId, frames: seq<Frame>)
    requires Nested(next, root, rest + [Frame(g, false)])
    requires forall f :: f in frames ==> !f.exit && f.id in next(g)
    ensures Nested(next, root, rest + [Frame(g, true)] + frames)
  {
    var after := rest + [Frame(g, true)] + frames;
    PopNested(next, root, rest, Frame(g, false));
    forall j | 0 <= j < |after|
      ensures Reaches(next, root, after[j].id)
      ensures forall i :: ExitAt(after, i) && i < j ==> ReachesPlus(next, after[i].id, after[j].id)
    {
      AboveExit(next, root, rest, g, frames, j);
    }
  }

  lemma AboveExit(next: Next, root: GraphId, rest: seq<Frame>, g: GraphId, frames: seq<Frame>, j: int)
    requires Nested(next, root, rest)
    requires Reaches(next, root, g) && forall i :: ExitAt(rest, i) ==> ReachesPlus(next, rest[i].id, g)
    requires forall f :: f in frames ==> !f.exit && f.id in next(g)
    requires 0 <= j < |rest + [Frame(g, true)] + frames|
    ensures var after := rest + [Frame(g, true)] + frames;
            Reaches(next, root, after[j].id) && forall i ::
              ExitAt(after, i) && i < j ==> ReachesPlus(next, after[i].id, after[j].id)
  {
    var after := rest + [Frame(g, true)] + frames;
    hide Reaches;
    hide ReachesPlus;
    if j > |rest| {
      var c := after[j].id;
      assert after[j] == frames[j - |rest| - 1];
      Edge(next, g, c);
      Snoc(next, root, g, c);
    }
    EnterExits(rest, g, frames);
    forall i | ExitAt(after, i) && i < j
      ensures ReachesPlus(next, after[i].id, after[j].id)
    {
      if i < |rest| && j > |rest| {
        PlusTrans(next, rest[i].id, g, after[j].id);
      }
    }
  }

  lemma EnterCovered(next: Next, root: GraphId, order: seq<GraphId>, rest: seq<Frame>, g: GraphId, frames: seq<Frame>)
    requires Covered(next, order, rest + [Frame(g, false)]) && Pending(root, order, rest + [Frame(g, false)])
    requires forall f :: f in frames ==> !f.exit
    requires forall c :: c in next(g) ==> Frame(c, false) in frames
    ensures Covered(next, order, rest + [Frame(g, true)] + frames)
            && Pending(root, order, rest + [Frame(g, true)] + frames)
  {
    var before, after := rest + [Frame(g, false)], rest + [Frame(g, true)] + frames;
    EnterExits(rest, g, frames);
    forall i, c | ExitAt(after, i) && c in next(after[i].id)
      ensures c in order || OnStack(after, c, i)
    {
      if i == |rest| {
        var k :| 0 <= k < |frames| && frames[k] == Frame(c, false);
        assert after[|rest| + 1 + k].id == c;
      } else {
        assert before[i] == after[i];
        if c !in order {
          SameIds(rest, g, frames, c, i);
        }
      }
    }
    if root !in order {
      SameIds(rest, g, frames, root, -1);
    }
  }

  lemma SameIds(rest: seq<Frame>, g: GraphId, frames: seq<Frame>, c: GraphId, above: int)
    requires OnStack(rest + [Frame(g, false)], c, above)
    ensures OnStack(rest + [Frame(g, true)] + frames, c, above)
  {
    var before, after := rest + [Frame(g, false)], rest + [Frame(g, true)] + frames;
    var j :| above < j < |before| && 0 <= j && before[j].id == c;
    assert after[j].id == c;
  }

  /** A definition met again while in progress contains itself. */
  lemma MetAgain(known: set<GraphId>, next: Next, root: GraphId, marks: map<GraphId, Mark>, order: seq<GraphId>,
                 rest: seq<Frame>, g: GraphId)
    requires Marked(known, marks, order, rest + [Frame(g, false)]) && Nested(next, root, rest + [Frame(g, false)])
    requires g in marks && marks[g] == Visiting
    ensures Reaches(next, root, g) && ReachesPlus(next, g, g)
  {
    PopNested(next, root, rest, Frame(g, false));
    assert Frame(g, true) in rest + [Frame(g, false)];
    var i :| 0 <= i < |rest| && rest[i] == Frame(g, true);
    assert ExitAt(rest, i);
  }

  /**
   * An order that holds the roots and puts children first lists exactly what the roots reach, and
   * that is well-founded.
   */
  lemma OrderComplete(known: set<GraphId>, next: Next, roots: seq<GraphId>, order: seq<GraphId>)
    requires ChildrenFirst(next, order)
    requires forall g :: g in order ==> g in known && FromRoots(next, roots, g)
    requires forall k :: 0 <= k < |roots| ==> roots[k] in order
    ensures forall g :: g in order <==> FromRoots(next, roots, g)
    ensures WellFounded(known, next, roots)
  {
    var s := set g | g in order;
    RankFalls(next, order);
    hide Rank;
    hide ChildrenFirst;
    forall g | FromRoots(next, roots, g)
      ensures g in order && !ReachesPlus(next, g, g)
    {
      hide Reaches;
      hide ReachesPlus;
      var k :| 0 <= k < |roots| && Reaches(next, roots[k], g);
      Stays(next, s, roots[k], g);
      RankAcyclic(next, Rank(order), s, g);
    }
    hide FromRoots;
    hide ReachesPlus;
  }

  /** The position in a children-first order falls along every edge. */
  lemma RankFalls(next: Next, order: seq<GraphId>)
    requires ChildrenFirst(next, order)
    ensures forall x, y :: x in order && y in next(x) ==> y in order && Rank(order)(y) < Rank(order)(x)
  {
    forall x, y | x in order && y in next(x)
      ensures y in order && Rank(order)(y) < Rank(order)(x)
    {
      var i := Rank(order)(x);
      RankAt(order, x);
      RankAt(order, y);
      assert y in order[..i];
      var j :| 0 <= j < i && order[j] == y;
    }
  }

  ghost function Rank(order: seq<GraphId>): GraphId -> int {
    (g: GraphId) => if g in order then IndexOf(order, g) else -1
  }

  ghost function IndexOf(order: seq<GraphId>, g: GraphId): (i: nat)
    requires g in order
    ensures i < |order| && order[i] == g
  {
    var i: nat :| i < |order| && order[i] == g;
    i
  }

  lemma RankAt(order: seq<GraphId>, g: GraphId)
    ensures g in order ==> 0 <= Rank(order)(g) < |order| && order[Rank(order)(g)] == g
  {
  }

  // ---------------------------------------------------------------------
  // The traversal

  /** The state of a walk from `root` that began with `order0` listed. */
  ghost predicate Walking(known: set<GraphId>, next: Next, root: GraphId, order0: seq<GraphId>,
                          marks: map<GraphId, Mark>, order: seq<GraphId>, stack: seq<Frame>) {
    && Marked(known, marks, order, stack) && Nested(next, root, stack)
    && Covered(next, order, stack) && Pending(root, order, stack) && ChildrenFirst(next, order)
    && (forall g :: g in order ==> g in order0 || Reaches(next, root, g))
    && (forall g :: g in order0 ==> g in order)
  }

  ghost function Unseen(known: set<GraphId>, marks: map<GraphId, Mark>): nat {
    |known - marks.Keys|
  }

  lemma Start(known: set<GraphId>, next: Next, root: GraphId, marks: map<GraphId, Mark>, order: seq<GraphId>)
    requires Marked(known, marks, order, []) && ChildrenFirst(next, order)
    ensures Walking(known, next, root, order, marks, order, [Frame(root, false)])
  {
    var stack := [Frame(root, false)];
    Refl(next, root);
    assert stack[0].id == root;
    assert OnStack(stack, root, -1);
    hide ChildrenFirst;
  }

  lemma Leave(known: set<GraphId>, next: Next, root: GraphId, order0: seq<GraphId>, marks: map<GraphId, Mark>,
              order: seq<GraphId>, rest: seq<Frame>, f: Frame)
    requires Walking(known, next, root, order0, marks, order, rest + [f]) && f.exit
    ensures Walking(known, next, root, order0, marks[f.id := Visited], order + [f.id], rest)
    ensures Unseen(known, marks[f.id := Visited]) == Unseen(known, marks)
  {
    var g := f.id;
    assert f == Frame(g, true);
    assert ExitAt(rest + [f], |rest|);
    PopNested(next, root, rest, f);
    assert g in marks && marks[f.id := Visited].Keys == marks.Keys + {g};
    LeaveMarked(known, marks, order, rest, g);
    LeaveOrder(next, order, rest, g);
    Pop(next, root, order, order + [f.id], rest, f);
    hide Marked;
    hide Nested;
    hide Covered;
    hide Pending;
    hide ChildrenFirst;
    hide Reaches;
  }

  lemma Skip(known: set<GraphId>, next: Next, root: GraphId, order0: seq<GraphId>, marks: map<GraphId, Mark>,
             order: seq<GraphId>, rest: seq<Frame>, f: Frame)
    requires Walking(known, next, root, order0, marks, order, rest + [f]) && !f.exit && f.id in marks
             && marks[f.id] == Visited
    ensures Walking(known, next, root, order0, marks, order, rest)
  {
    var g := f.id;
    assert f == Frame(g, false);
    PopNested(next, root, rest, f);
    SkipMarked(known, marks, order, rest, g);
    Pop(next, root, order, order, rest, f);
    hide Nested;
    hide Covered;
    hide Pending;
    hide ChildrenFirst;
    hide Reaches;
  }

  lemma Enter(known: set<GraphId>, next: Next, root: GraphId, order0: seq<GraphId>, marks: map<GraphId, Mark>,
              order: seq<GraphId>, rest: seq<Frame>, g: GraphId, frames: seq<Frame>)
    requires Walking(known, next, root, order0, marks, order, rest + [Frame(g, false)]) && g in known && g !in marks
    requires forall f :: f in frames ==> !f.exit && f.id in next(g)
    requires forall c :: c in next(g) ==> Frame(c, false) in frames
    ensures Walking(known, next, root, order0, marks[g := Visiting], order, rest + [Frame(g, true)] + frames)
  {
    EnterMarked(known, marks, order, rest, g, frames);
    EnterNested(next, root, rest, g, frames);
    EnterCovered(next, root, order, rest, g, frames);
    hide Marked;
    hide Nested;
    hide Covered;
    hide Pending;
    hide ChildrenFirst;
    hide Reaches;
  }

  /** The root reaches a definition that is missing or contains itself. */
  ghost predicate Refused(known: set<GraphId>, next: Next, root: GraphId) {
    exists g :: Reaches(next, root, g) && (g !in known || ReachesPlus(next, g, g))
  }

  lemma Refuse(known: set<GraphId>, next: Next, root: GraphId, order0: seq<GraphId>, marks: map<GraphId, Mark>,
               order: seq<GraphId>, rest: seq<Frame>, f: Frame)
    requires Walking(known, next, root, order0, marks, order, rest + [f]) && !f.exit
    requires if f.id in marks then marks[f.id] == Visiting else f.id !in known
    ensures Refused(known, next, root)
  {
    var g := f.id;
    assert f == Frame(g, false);
    PopNested(next, root, rest, Frame(g, false));
    if g in marks {
      MetAgain(known, next, root, marks, order, rest, g);
    }
    hide Nested;
  }

  /** A walk between roots: every root so far is listed, and nothing the roots do not reach. */
  ghost predicate Listed(known: set<GraphId>, next: Next, roots: seq<GraphId>, k: int, marks: map<GraphId, Mark>,
                         order: seq<GraphId>)
  {
    && Marked(known, marks, order, []) && ChildrenFirst(next, order)
    && (forall g :: g in order ==> FromRoots(next, roots, g))
    && (forall i :: 0 <= i < k && i < |roots| ==> roots[i] in order)
  }

  lemma Finish(known: set<GraphId>, next: Next, roots: seq<GraphId>, k: nat, marks0: map<GraphId, Mark>,
               order0: seq<GraphId>, marks: map<GraphId, Mark>, order: seq<GraphId>)
    requires k < |roots| && Listed(known, next, roots, k, marks0, order0)
    requires Walking(known, next, roots[k], order0, marks, order, [])
    ensures Listed(known, next, roots, k + 1, marks, order)
  {
    assert roots[k] in order;
    hide Reaches;
    hide Marked;
    hide ChildrenFirst;
  }

  /** The children of a definition, as frames to enter, in any order and once for every instance. */
  method PushChildren(d: Definition, stack: seq<Frame>) returns (stack': seq<Frame>, ghost frames: seq<Frame>)
    ensures stack' == stack + frames
    ensures forall f :: f in frames ==> !f.exit && f.id in ChildrenOf(d)
    ensures forall c :: c in ChildrenOf(d) ==> Frame(c, false) in frames
  {
    stack', frames := stack, [];
    var rest := d.nodes.Keys;
    while rest != {}
      invariant rest <= d.nodes.Keys && stack' == stack + frames
      invariant forall f :: f in frames ==> !f.exit && f.id in ChildrenOf(d)
      invariant forall n ::
                n in d.nodes && n !in rest && d.nodes[n].kind.Instance? ==> Frame(d.nodes[n].kind.def, false) in frames
      decreases |rest|
    {
      var n :| n in rest;
      rest := rest - {n};
      var child := SubgraphDefIdOf(d.nodes[n].kind);
      if child.Some? {
        stack', frames := stack' + [Frame(child.value, false)], frames + [Frame(child.value, false)];
        assert child.value in ChildrenOf(d);
      }
    }
  }

  /** A definition not met before: its exit frame goes under its children. */
  method EnterDefinition(graphs: DefMap, ghost root: GraphId, ghost order0: seq<GraphId>, marks: map<GraphId, Mark>,
                         ghost order: seq<GraphId>, rest: seq<Frame>, f: Frame)
    returns (marks': map<GraphId, Mark>, stack: seq<Frame>)
    requires Walking(graphs.Keys, Children(graphs), root, order0, marks, order, rest + [f]) && !f.exit && f.id in graphs
             && f.id !in marks
    ensures Walking(graphs.Keys, Children(graphs), root, order0, marks', order, stack)
    ensures Unseen(graphs.Keys, marks') < Unseen(graphs.Keys, marks)
  {
    var g := f.id;
    assert f == Frame(g, false);
    ChildrenAt(graphs, g);
    hide *;
    ghost var frames;
    marks' := marks[g := Visiting];
    stack, frames := PushChildren(graphs[g], rest + [Frame(g, true)]);
    Enter(graphs.Keys, Children(graphs), root, order0, marks, order, rest, g, frames);
    Fewer(graphs.Keys, marks, g);
  }

  /** One turn of the walk: the top frame is left, dropped or entered, or the walk refuses. */
  method Turn(graphs: DefMap, ghost root: GraphId, ghost order0: seq<GraphId>, marks: map<GraphId, Mark>,
              order: seq<GraphId>, rest: seq<Frame>, frame: Frame)
    returns (ok: bool, marks': map<GraphId, Mark>, order': seq<GraphId>, stack: seq<Frame>)
    requires Walking(graphs.Keys, Children(graphs), root, order0, marks, order, rest + [frame])
    ensures !ok ==> Refused(graphs.Keys, Children(graphs), root)
    ensures ok ==> Walking(graphs.Keys, Children(graphs), root, order0, marks', order', stack)
    ensures ok ==> Unseen(graphs.Keys, marks') < Unseen(graphs.Keys, marks)
                   || (Unseen(graphs.Keys, marks') == Unseen(graphs.Keys, marks) && |stack| == |rest|)
  {
    hide *;
    ok, marks', order', stack := true, marks, order, rest;
    if frame.exit {
      Leave(graphs.Keys, Children(graphs), root, order0, marks, order, rest, frame);
      marks', order' := marks[frame.id := Visited], order + [frame.id];
    } else if frame.id in marks && marks[frame.id] == Visited {
      Skip(graphs.Keys, Children(graphs), root, order0, marks, order, rest, frame);
    } else if frame.id in marks || frame.id !in graphs {
      Refuse(graphs.Keys, Children(graphs), root, order0, marks, order, rest, frame);
      ok := false;
    } else {
      marks', stack := EnterDefinition(graphs, root, order0, marks, order, rest, frame);
    }
  }

  /** One root: everything it reaches joins the order, or the walk refuses. */
  method VisitRoot(graphs: DefMap, roots: seq<GraphId>, k: nat, marks0: map<GraphId, Mark>, order0: seq<GraphId>)
    returns (ok: bool, marks: map<GraphId, Mark>, order: seq<GraphId>)
    requires k < |roots| && Listed(graphs.Keys, Children(graphs), roots, k, marks0, order0)
    ensures if ok then Listed(graphs.Keys, Children(graphs), roots, k + 1, marks, order)
            else Refused(graphs.Keys, Children(graphs), roots[k])
  {
    ok, marks, order := true, marks0, order0;
    var stack := [Frame(roots[k], false)];
    Start(graphs.Keys, Children(graphs), roots[k], marks, order);
    hide *;
    while stack != []
      invariant ok && Walking(graphs.Keys, Children(graphs), roots[k], order0, marks, order, stack)
      decreases Unseen(graphs.Keys, marks), |stack|
    {
      var frame;
      stack, frame := PopFrame(stack);
      ok, marks, order, stack := Turn(graphs, roots[k], order0, marks, order, stack, frame);
      if !ok {
        return;
      }
    }
    Finish(graphs.Keys, Children(graphs), roots, k, marks0, order0, marks, order);
  }

  lemma Fewer(known: set<GraphId>, marks: map<GraphId, Mark>, g: GraphId)
    requires g in known && g !in marks
    ensures Unseen(known, marks[g := Visiting]) < Unseen(known, marks)
  {
    assert known - marks.Keys == (known - marks[g := Visiting].Keys) + {g};
  }

  method PopFrame(stack: seq<Frame>) returns (rest: seq<Frame>, frame: Frame)
    requires stack != []
    ensures stack == rest + [frame] && |rest| == |stack| - 1
  {
    rest, frame := stack[..|stack| - 1], stack[|stack| - 1];
  }

  lemma ChildrenAt(graphs: DefMap, g: GraphId)
    requires g in graphs
    ensures Children(graphs)(g) == ChildrenOf(graphs[g])
  {
  }

  /**
   * Every definition the roots reach, once each and children first; refused exactly when one is
   * missing or contains itself.
   */
  method DefinitionOrder(graphs: DefMap, roots: seq<GraphId>) returns (order: Option<seq<GraphId>>)
    ensures order.Some? <==> WellFounded(graphs.Keys, Children(graphs), roots)
    ensures order.Some? ==> ChildrenFirst(Children(graphs), order.value)
    ensures order.Some? ==> forall g :: g in order.value <==> FromRoots(Children(graphs), roots, g)
  {
    ghost var next := Children(graphs);
    var marks: map<GraphId, Mark> := map[];
    var listed: seq<GraphId> := [];
    assert Listed(graphs.Keys, next, roots, 0, marks, listed);
    hide *;
    for k := 0 to |roots|
      invariant Listed(graphs.Keys, next, roots, k, marks, listed)
    {
      var ok;
      ok, marks, listed := VisitRoot(graphs, roots, k, marks, listed);
      if !ok {
        RefusedIllFounded(graphs.Keys, next, roots, k);
        return None;
      }
    }
    ListedAll(graphs.Keys, next, roots, marks, listed);
    return Some(listed);
  }

  lemma RefusedIllFounded(known: set<GraphId>, next: Next, roots: seq<GraphId>, k: nat)
    requires k < |roots| && Refused(known, next, roots[k])
    ensures !WellFounded(known, next, roots)
  {
    var g :| Reaches(next, roots[k], g) && (g !in known || ReachesPlus(next, g, g));
    assert FromRoots(next, roots, g);
    hide FromRoots;
    hide Reaches;
    hide ReachesPlus;
  }

  lemma ListedAll(known: set<GraphId>, next: Next, roots: seq<GraphId>, marks: map<GraphId, Mark>, order: seq<GraphId>)
    requires Listed(known, next, roots, |roots|, marks, order)
    ensures ChildrenFirst(next, order) && WellFounded(known, next, roots)
    ensures forall g :: g in order <==> FromRoots(next, roots, g)
  {
    hide FromRoots;
    hide ChildrenFirst;
    OrderComplete(known, next, roots, order);
  }
}
