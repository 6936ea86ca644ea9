/**
 * The cyclicity pass of the selection analysis: Tarjan's strongly connected
 * components over a finite digraph, updating its index, lowlink and stack in place.
 * Successors and roots are taken in an arbitrary order.
 */
module Tarjan {
  import opened Graphs
  import opened Identity

  type Digraph = map<Id, set<Id>>

  /** Successors of a vertex; edges to unknown vertices do not occur in a graph that `WellFormed` accepts. */
  function Succ(g: Digraph): Id -> set<Id> {
    x => if x in g then g[x] else {}
  }

  predicate WellFormed(g: Digraph) {
    forall x :: x in g ==> g[x] <= g.Keys
  }

  /** The pass's variables; `gray` is the set of vertices whose visit is still running. */
  datatype Pass = Pass(nextIndex: nat, indices: map<Id, nat>, stack: seq<Id>, gray: set<Id>)

  ghost function Finished(s: Pass): set<Id> {
    s.indices.Keys - Elems(s.stack)
  }

  function Elems(q: seq<Id>): set<Id> {
    set x | x in q
  }

  /** Stack discipline: distinct indexed vertices in increasing index order. */
  ghost predicate Ordered(s: Pass) {
    && (forall x :: x in s.indices ==> s.indices[x] < s.nextIndex)
    && (forall x :: x in s.stack ==> x in s.indices)
    && (forall i, j :: 0 <= i < j < |s.stack| ==> s.indices[s.stack[i]] < s.indices[s.stack[j]])
    && s.gray <= Elems(s.stack)
  }

  /** Only running visits may still have unvisited successors, and a popped component never leads back out. */
  ghost predicate Explored(g: Digraph, s: Pass) {
    && s.indices.Keys <= g.Keys
    && (forall x {:trigger Succ(g)(x)} :: x in s.indices && x !in s.gray ==> Succ(g)(x) <= s.indices.Keys)
    && Closed(Succ(g), Finished(s))
  }

  /** `z` is a running vertex, no younger than `x`, that `x` reaches. */
  ghost predicate Anchor(g: Digraph, s: Pass, x: Id, z: Id) {
    z in s.gray && z in s.indices && x in s.indices && s.indices[z] <= s.indices[x] && Reaches(Succ(g), x, z)
  }

  ghost predicate Anchored(g: Digraph, s: Pass, x: Id) {
    exists z :: Anchor(g, s, x, z)
  }

  /** Every stacked vertex reaches a running one below it, and running ones reach all above them. */
  ghost predicate Linked(g: Digraph, s: Pass) {
    && (forall x {:trigger Anchored(g, s, x)} :: x in s.stack ==> Anchored(g, s, x))
    && (forall z, x {:trigger Reaches(Succ(g), z, x)} ::
          z in s.gray && x in s.stack && x in s.indices && z in s.indices && s.indices[z] <= s.indices[x]
          ==> Reaches(Succ(g), z, x))
  }

  ghost predicate Inv(g: Digraph, s: Pass) {
    Ordered(s) && Explored(g, s) && Linked(g, s)
  }

  /** `low` bounds the index of every vertex of `below` that an edge out of `xs` leads to. */
  ghost predicate Bounds(g: Digraph, s: Pass, xs: set<Id>, below: set<Id>, low: nat) {
    forall x, y :: x in xs && y in Succ(g)(x) && y in below && y in s.indices ==> low <= s.indices[y]
  }

  ghost predicate Cyclic(g: Digraph, x: Id) {
    ReachesPlus(Succ(g), x, x)
  }

  /** The vertices of `xs` that can return to themselves. */
  ghost function CyclicIn(g: Digraph, xs: set<Id>): set<Id> {
    set x | x in xs && Cyclic(g, x)
  }

  // ---------------------------------------------------------------------
  // Steps of one visit

  /** Entering a visit: the vertex gets the next index and joins the stack. */
  lemma Enter(g: Digraph, s: Pass, id: Id, t: Pass)
    requires WellFormed(g) && Inv(g, s) && id in g && id !in s.indices
    requires forall z :: z in s.gray ==> Reaches(Succ(g), z, id)
    requires t == Pass(s.nextIndex + 1, s.indices[id := s.nextIndex], s.stack + [id], s.gray + {id})
    ensures Inv(g, t) && Finished(t) == Finished(s)
  {
    assert Ordered(t);
    assert Finished(t) == Finished(s);
    forall x | x in t.stack
      ensures Anchored(g, t, x)
    {
      if x == id {
        Refl(Succ(g), id);
        assert Anchor(g, t, x, id);
      } else {
        assert x in s.stack;
        assert Anchored(g, s, x);
        var z :| Anchor(g, s, x, z);
        assert Anchor(g, t, x, z);
      }
    }
    forall z, x | z in t.gray && x in t.stack && t.indices[z] <= t.indices[x]
      ensures Reaches(Succ(g), z, x)
    {
      Refl(Succ(g), id);
      if z == id {
        assert x == id;
      } else if x != id {
        assert z in s.stack && x in s.stack;
        assert z in s.gray && s.indices[z] <= s.indices[x];
      }
    }
  }

  lemma Reanchored(g: Digraph, t: Pass, id: Id, y: Id, u: Pass, x: Id)
    requires Inv(g, t) && id in t.gray && x in t.stack
    requires y in t.stack && t.indices[y] < t.indices[id] && Reaches(Succ(g), id, y)
    requires u == t.(gray := t.gray - {id})
    ensures Anchored(g, u, x)
  {
    hide Reaches;
    hide Explored;
    assert Anchored(g, t, x);
    var z :| Anchor(g, t, x, z);
    if z == id {
      assert Anchored(g, t, y);
      var z' :| Anchor(g, t, y, z');
      Trans(Succ(g), x, id, y);
      Trans(Succ(g), x, y, z');
      assert Anchor(g, u, x, z');
    } else {
      assert Anchor(g, u, x, z);
    }
  }

  /** Leaving a visit whose lowlink fell below its own index: the vertex stays stacked. */
  lemma LeaveStacked(g: Digraph, t: Pass, id: Id, y: Id, u: Pass)
    requires WellFormed(g) && Inv(g, t) && id in t.gray
    requires Succ(g)(id) <= t.indices.Keys
    requires y in t.stack && t.indices[y] < t.indices[id] && Reaches(Succ(g), id, y)
    requires u == t.(gray := t.gray - {id})
    ensures Inv(g, u) && Finished(u) == Finished(t)
  {
    hide Reaches;
    hide Anchored;
    forall x | x in u.stack
      ensures Anchored(g, u, x)
    {
      Reanchored(g, t, id, y, u, x);
    }
  }

  lemma StackNeedsRunning(g: Digraph, s: Pass, x: Id)
    requires Inv(g, s) && x in s.stack
    ensures s.gray != {}
  {
    assert Anchored(g, s, x);
  }

  /** The vertices stacked from `id` upward are one strongly connected component. */
  lemma SegmentConnected(g: Digraph, t: Pass, id: Id, x: Id)
    requires Inv(g, t) && id in t.gray
    requires forall z :: z in t.gray ==> t.indices[z] <= t.indices[id]
    requires x in t.stack && t.indices[id] <= t.indices[x]
    ensures Reaches(Succ(g), id, x) && Reaches(Succ(g), x, id)
  {
    assert Anchored(g, t, x);
    var z :| Anchor(g, t, x, z);
    assert id in t.stack;
    assert Reaches(Succ(g), z, id);
    Trans(Succ(g), x, z, id);
  }

  /** Position of the topmost running vertex on the stack and what lies above it. */
  ghost predicate Top(t: Pass, base: seq<Id>, id: Id) {
    && |base| < |t.stack| && t.stack[..|base|] == base && t.stack[|base|] == id
    && id in t.gray && t.gray - {id} <= Elems(base)
  }

  /** Leaving a visit at a component root: the segment is popped and becomes finished. */
  lemma LeaveRoot(g: Digraph, t: Pass, base: seq<Id>, id: Id, u: Pass)
    requires WellFormed(g) && Inv(g, t) && Top(t, base, id)
    requires Succ(g)(id) <= t.indices.Keys
    requires Bounds(g, t, Elems(t.stack[|base|..]), Elems(base), t.indices[id])
    requires u == t.(stack := base, gray := t.gray - {id})
    ensures Inv(g, u) && Finished(u) == Finished(t) + Elems(t.stack[|base|..])
  {
    var seg := Elems(t.stack[|base|..]);
    assert t.stack == base + t.stack[|base|..];
    SegmentSplit(t, base);
    assert Finished(u) == Finished(t) + seg;
    forall x, y | x in Finished(u) && y in Succ(g)(x)
      ensures y in Finished(u)
    {
      assert x in seg ==> y in t.indices;
    }
    forall x | x in u.stack
      ensures Anchored(g, u, x)
    {
      assert x in t.stack;
      assert Anchored(g, t, x);
      var z :| Anchor(g, t, x, z);
      assert z != id;
      assert Anchor(g, u, x, z);
    }
    forall z, x | z in u.gray && x in u.stack && u.indices[z] <= u.indices[x]
      ensures Reaches(Succ(g), z, x)
    {
      assert z in t.gray && x in t.stack;
    }
  }

  /** Indices separate the stack below a position from the segment above it. */
  lemma SegmentSplit(t: Pass, base: seq<Id>)
    requires Ordered(t) && |base| < |t.stack| && t.stack[..|base|] == base
    ensures Elems(t.stack) == Elems(base) + Elems(t.stack[|base|..])
    ensures forall x, y ::
            x in base && y in t.stack[|base|..] ==> x in t.stack && y in t.stack && t.indices[x] < t.indices[y]
    ensures Elems(base) !! Elems(t.stack[|base|..])
  {
    assert t.stack == base + t.stack[|base|..];
    forall x, y {:trigger x in base, y in t.stack[|base|..]} | x in base && y in t.stack[|base|..]
      ensures x in t.stack && y in t.stack && t.indices[x] < t.indices[y]
    {
      var i :| 0 <= i < |base| && base[i] == x;
      var j :| 0 <= j < |t.stack[|base|..]| && t.stack[|base|..][j] == y;
      assert t.stack[i] == x && t.stack[|base| + j] == y;
    }
  }

  /** A popped component is cyclic exactly when it has two members or a self-loop. */
  lemma ComponentCyclic(g: Digraph, t: Pass, base: seq<Id>, id: Id, x: Id)
    requires WellFormed(g) && Inv(g, t) && Top(t, base, id)
    requires Succ(g)(id) <= t.indices.Keys
    requires Bounds(g, t, Elems(t.stack[|base|..]), Elems(base), t.indices[id])
    requires x in t.stack[|base|..]
    ensures Cyclic(g, x) <==> (|t.stack| - |base| > 1 || id in Succ(g)(id))
  {
    SegmentSplit(t, base);
    forall w | w in t.stack[|base|..]
      ensures Reaches(Succ(g), id, w) && Reaches(Succ(g), w, id)
    {
      assert id == t.stack[|base|..][0];
      if w != id {
        var j :| 0 <= j < |t.stack[|base|..]| && t.stack[|base|..][j] == w;
        assert t.stack[|base| + j] == w;
      }
      SegmentConnected(g, t, id, w);
    }
    if |t.stack| - |base| > 1 {
      var i := if x == id then |base| + 1 else |base|;
      var w := t.stack[i];
      assert w in t.stack[|base|..] by { assert w == t.stack[|base|..][i - |base|]; }
      assert w != x;
      Trans(Succ(g), x, id, w);
      Trans(Succ(g), w, id, x);
      Split(Succ(g), x, w);
      PlusTrans(Succ(g), x, w, x);
    } else {
      assert t.stack[|base|..] == [id];
      if Cyclic(g, id) {
        LoneCycle(g, t, base, id);
      }
      if id in Succ(g)(id) { Edge(Succ(g), id, id); }
    }
  }

  lemma LoneCycle(g: Digraph, t: Pass, base: seq<Id>, id: Id)
    requires WellFormed(g) && Inv(g, t) && Top(t, base, id)
    requires Succ(g)(id) <= t.indices.Keys
    requires t.stack[|base|..] == [id]
    requires Bounds(g, t, {id}, Elems(base), t.indices[id])
    requires Cyclic(g, id)
    ensures id in Succ(g)(id)
  {
    SegmentSplit(t, base);
    var y :| y in Succ(g)(id) && Reaches(Succ(g), y, id);
    if y != id {
      assert y !in base;
      Stays(Succ(g), Finished(t), y, id);
    }
  }

  // ---------------------------------------------------------------------
  // A visit as a whole: what it has established so far and when it returns

  /** Some stacked vertex that `id` reaches has index `low`. */
  ghost predicate Attained(g: Digraph, t: Pass, id: Id, low: nat) {
    exists y :: y in t.stack && y in t.indices && t.indices[y] == low && Reaches(Succ(g), id, y)
  }

  ghost predicate Keeps(s: Pass, t: Pass) {
    forall x :: x in s.indices ==> x in t.indices && t.indices[x] == s.indices[x]
  }

  /** Entered in state `s`, the visit of `id` has reached state `t` after following the edges to `done`. */
  ghost predicate Scanning(g: Digraph, s: Pass, id: Id, t: Pass, low: nat, done: set<Id>) {
    && Inv(g, t) && Top(t, s.stack, id) && t.gray == s.gray + {id} && Keeps(s, t)
    && id in t.indices && t.indices[id] == s.nextIndex && low <= s.nextIndex && Attained(g, t, id, low)
    && done <= Succ(g)(id) && done <= t.indices.Keys
    && Bounds(g, t, Elems(t.stack[|s.stack| + 1..]), Elems(s.stack), low)
    && (forall y :: y in done && y in s.stack && y in t.indices ==> low <= t.indices[y])
  }

  /**
   * Entered in state `s`, the visit of `id` returned in state `u`: either the whole
   * component of `id` was popped, or `id` stays stacked with a lowlink that some older
   * stacked vertex it reaches attains. No edge into the older stack undercuts it.
   */
  ghost predicate Visited(g: Digraph, s: Pass, id: Id, u: Pass, low: nat) {
    && Inv(g, u) && u.gray == s.gray && Keeps(s, u)
    && id in u.indices && s.nextIndex <= u.indices[id] && low <= u.indices[id]
    && |s.stack| <= |u.stack| && u.stack[..|s.stack|] == s.stack
    && (if low == u.indices[id] then u.stack == s.stack else id in u.stack && Attained(g, u, id, low))
    && Bounds(g, u, Elems(u.stack[|s.stack|..]), Elems(s.stack), low)
  }

  /** What holds between visits of the pass's variables. */
  ghost predicate Sound(g: Digraph, s: Pass, onStack: set<Id>, lowKeys: set<Id>, cyclic: set<Id>) {
    && WellFormed(g) && Inv(g, s)
    && onStack == Elems(s.stack) && lowKeys == s.indices.Keys
    && cyclic == CyclicIn(g, Finished(s))
  }

  function Min(a: nat, b: nat): nat {
    if a < b then a else b
  }

  lemma ScanStart(g: Digraph, s: Pass, on: set<Id>, keys: set<Id>, cyclic: set<Id>, id: Id, t: Pass)
    requires Sound(g, s, on, keys, cyclic) && id in g && id !in s.indices
    requires forall z :: z in s.gray ==> Reaches(Succ(g), z, id)
    requires t == Pass(s.nextIndex + 1, s.indices[id := s.nextIndex], s.stack + [id], s.gray + {id})
    ensures Scanning(g, s, id, t, s.nextIndex, {}) && Sound(g, t, on + {id}, keys + {id}, cyclic)
  {
    Enter(g, s, id, t);
    Refl(Succ(g), id);
    assert t.stack[|s.stack|] == id;
    assert t.stack[|s.stack| + 1..] == [];
  }

  /** What a nested visit leaves in place: the vertices stacked before it, under the same bounds. */
  lemma NestedStack(g: Digraph, s: Pass, id: Id, t: Pass, low: nat, done: set<Id>, next: Id, u: Pass, sub: nat)
    requires Scanning(g, s, id, t, low, done) && next in Succ(g)(id) && next !in t.indices
    requires Visited(g, t, next, u, sub)
    ensures Top(u, s.stack, id) && next !in s.stack
    ensures Bounds(g, u, Elems(u.stack[|s.stack| + 1..]), Elems(s.stack), Min(low, sub))
  {
    hide Reaches;
    hide Linked;
    hide Explored;
    assert u.stack[..|s.stack|] == u.stack[..|t.stack|][..|s.stack|];
    assert u.stack[|s.stack|] == u.stack[..|t.stack|][|s.stack|];
    assert next !in s.stack by {
      assert t.stack == s.stack + t.stack[|s.stack|..];
    }
    BoundsKept(g, t, u, s.stack, low);
    MergeBounds(g, u, s.stack, t.stack, low, sub);
  }

  lemma NestedAttained(g: Digraph, s: Pass, id: Id, t: Pass, low: nat, done: set<Id>, next: Id, u: Pass, sub: nat)
    requires Scanning(g, s, id, t, low, done) && next in Succ(g)(id) && next !in t.indices
    requires Visited(g, t, next, u, sub)
    ensures Attained(g, u, id, Min(low, sub))
  {
    hide Reaches;
    hide Linked;
    hide Explored;
    hide Bounds;
    if low <= sub {
      var y :| y in t.stack && y in t.indices && t.indices[y] == low && Reaches(Succ(g), id, y);
      assert u.stack == t.stack + u.stack[|t.stack|..];
      assert y in u.stack && u.indices[y] == low;
    } else {
      assert t.indices[id] < t.nextIndex;
      var y :| y in u.stack && y in u.indices && u.indices[y] == sub && Reaches(Succ(g), next, y);
      Edge(Succ(g), id, next);
      Trans(Succ(g), id, next, y);
    }
  }

  /** Following an edge to an unvisited vertex, whose own visit then returns. */
  lemma ScanNew(g: Digraph, s: Pass, id: Id, t: Pass, low: nat, done: set<Id>, next: Id, u: Pass, sub: nat)
    requires Scanning(g, s, id, t, low, done) && next in Succ(g)(id) && next !in t.indices
    requires Visited(g, t, next, u, sub)
    ensures Scanning(g, s, id, u, Min(low, sub), done + {next}) && t.indices.Keys <= u.indices.Keys
  {
    hide Reaches;
    hide Inv;
    NestedStack(g, s, id, t, low, done, next, u, sub);
    NestedAttained(g, s, id, t, low, done, next, u, sub);
    hide Bounds;
    hide Attained;
    hide Top;
  }

  lemma BoundsKept(g: Digraph, t: Pass, u: Pass, base: seq<Id>, low: nat)
    requires Keeps(t, u) && |base| < |t.stack| && t.stack[..|base|] == base && Ordered(t)
    requires Bounds(g, t, Elems(t.stack[|base| + 1..]), Elems(base), low)
    ensures Bounds(g, u, Elems(t.stack[|base| + 1..]), Elems(base), low)
  {
    forall y | y in base
      ensures y in t.indices
    {
      assert y in t.stack by { assert t.stack == base + t.stack[|base|..]; }
    }
  }

  /** Following an edge to a visited vertex: it counts only while it is stacked. */
  lemma ScanSeen(g: Digraph, s: Pass, id: Id, t: Pass, low: nat, done: set<Id>, next: Id)
    requires Scanning(g, s, id, t, low, done) && next in Succ(g)(id) && next in t.indices
    ensures Scanning(g, s, id, t, if next in t.stack then Min(low, t.indices[next]) else low, done + {next})
  {
    hide Reaches;
    assert t.stack == s.stack + t.stack[|s.stack|..];
    Edge(Succ(g), id, next);
  }

  lemma SegmentBounds(g: Digraph, s: Pass, id: Id, t: Pass, low: nat)
    requires Scanning(g, s, id, t, low, Succ(g)(id))
    ensures Bounds(g, t, Elems(t.stack[|s.stack|..]), Elems(s.stack), low)
  {
    assert t.stack[|s.stack|..] == [id] + t.stack[|s.stack| + 1..];
  }

  lemma ReturnStacked(g: Digraph, s: Pass, on: set<Id>, keys: set<Id>, cyclic: set<Id>, id: Id, t: Pass, low: nat,
                      u: Pass)
    requires Sound(g, t, on, keys, cyclic) && Inv(g, s) && id !in s.indices && id in t.indices
    requires Scanning(g, s, id, t, low, Succ(g)(id)) && low != t.indices[id]
    requires u == t.(gray := s.gray)
    ensures Visited(g, s, id, u, low) && Sound(g, u, on, keys, cyclic)
  {
    hide Reaches;
    var y :| y in t.stack && y in t.indices && t.indices[y] == low && Reaches(Succ(g), id, y);
    assert id !in s.gray by { assert id !in s.stack; }
    assert u.gray == t.gray - {id};
    LeaveStacked(g, t, id, y, u);
    SegmentBounds(g, s, id, t, low);
    assert Attained(g, u, id, low);
    assert id in u.stack;
  }

  lemma ReturnRoot(g: Digraph, s: Pass, on: set<Id>, keys: set<Id>, cyclic: set<Id>, id: Id, t: Pass, u: Pass)
    requires Sound(g, t, on, keys, cyclic) && Inv(g, s) && id !in s.indices
    requires id in g && id in t.indices && Scanning(g, s, id, t, t.indices[id], Succ(g)(id))
    requires u == t.(stack := s.stack, gray := s.gray)
    ensures Visited(g, s, id, u, t.indices[id])
    ensures Sound(g, u, Elems(s.stack), keys,
                  cyclic + if |t.stack| - |s.stack| > 1 || id in g[id] then Elems(t.stack[|s.stack|..]) else {})
  {
    hide Reaches;
    SegmentBounds(g, s, id, t, t.indices[id]);
    assert id !in s.gray by { assert id !in s.stack; }
    assert u.gray == t.gray - {id};
    LeaveRoot(g, t, s.stack, id, u);
    forall x | x in t.stack[|s.stack|..]
      ensures Cyclic(g, x) <==> |t.stack| - |s.stack| > 1 || id in Succ(g)(id)
    {
      ComponentCyclic(g, t, s.stack, id, x);
    }
    assert u.stack[|s.stack|..] == [];
  }

  /** Where the vertex being visited sits on the stack. */
  lemma ScanPosition(g: Digraph, s: Pass, id: Id, t: Pass, low: nat, done: set<Id>)
    requires Scanning(g, s, id, t, low, done)
    ensures Ordered(t) && |s.stack| < |t.stack| && t.stack[|s.stack|] == id && t.stack[..|s.stack|] == s.stack
    ensures id in t.indices && s.indices.Keys + {id} <= t.indices.Keys
  {
  }

  // ---------------------------------------------------------------------
  // The imperative pass

  class TarjanPass {
    const forward: Digraph
    var nextIndex: nat
    var indices: map<Id, nat>
    var lowlinks: map<Id, nat>
    var stack: seq<Id>
    var onStack: set<Id>
    var cyclicNodes: set<Id>
    ghost var gray: set<Id>

    ghost function State(): Pass
      reads this
    {
      Pass(nextIndex, indices, stack, gray)
    }

    ghost predicate Valid()
      reads this
    {
      Sound(forward, State(), onStack, lowlinks.Keys, cyclicNodes)
    }

    constructor (g: Digraph)
      requires WellFormed(g)
      ensures Valid() && forward == g && indices == map[] && gray == {} && stack == []
    {
      forward := g;
      nextIndex, indices, lowlinks, stack, onStack, cyclicNodes := 0, map[], map[], [], {}, {};
      gray := {};
    }

    /** The visit of `id`, entered in state `s`, has followed the edges to `done`. */
    ghost predicate Busy(s: Pass, id: Id, done: set<Id>)
      reads this
    {
      Valid() && id in lowlinks && id in forward && id !in s.indices && Inv(forward, s)
      && Scanning(forward, s, id, State(), lowlinks[id], done)
    }

    /** One depth-first visit of an unvisited vertex that every running visit reaches. */
    method Visit(id: Id)
      requires Valid() && id in forward && id !in indices
      requires forall z :: z in gray ==> Reaches(Succ(forward), z, id)
      modifies this
      decreases |forward.Keys - indices.Keys|, 1
      ensures Valid() && id in lowlinks
      ensures Visited(forward, old(State()), id, State(), lowlinks[id])
      ensures KeepsLowlinks(old(lowlinks), lowlinks)
    {
      hide *;
      ghost var s := Begin(id);
      var rest := forward[id];
      assert forward[id] - rest == {};
      while rest != {}
        invariant rest <= forward[id] && Busy(s, id, forward[id] - rest)
        invariant KeepsLowlinks(old(lowlinks), lowlinks)
        decreases |rest|
      {
        var next :| next in rest;
        ghost var done := forward[id] - rest;
        rest := rest - {next};
        assert forward[id] - rest == done + {next};
        ghost var mid := lowlinks;
        FollowEdge(s, id, done, next);
        KeptCompose(old(lowlinks), mid, lowlinks, id);
      }
      assert forward[id] - {} == Succ(forward)(id);
      Leave(s, id);
    }

    /** The start of a visit: `id` gets the next index and joins the stack. */
    method Begin(id: Id) returns (ghost s: Pass)
      requires Valid() && id in forward && id !in indices
      requires forall z :: z in gray ==> Reaches(Succ(forward), z, id)
      modifies this
      ensures s == old(State()) && s.gray == old(gray) && s.indices == old(indices)
      ensures Busy(s, id, {}) && KeepsLowlinks(old(lowlinks), lowlinks) && id !in old(lowlinks)
      ensures Succ(forward)(id) == forward[id]
    {
      hide Reaches;
      hide Inv;
      hide Scanning;
      s := State();
      SoundKeys(forward, s, onStack, lowlinks.Keys, cyclicNodes);
      ScanStart(forward, s, onStack, lowlinks.Keys, cyclicNodes, id,
                Pass(nextIndex + 1, indices[id := nextIndex], stack + [id], gray + {id}));
      hide Sound;
      var index := nextIndex;
      nextIndex := nextIndex + 1;
      indices := indices[id := index];
      lowlinks := lowlinks[id := index];
      stack := stack + [id];
      onStack := onStack + {id};
      gray := gray + {id};
      assert lowlinks.Keys == old(lowlinks).Keys + {id};
    }

    /** The edge from `id` to `next`, visiting `next` first when it is new. */
    method FollowEdge(ghost s: Pass, id: Id, ghost done: set<Id>, next: Id)
      requires Busy(s, id, done) && next in forward[id]
      requires forall z :: z in s.gray ==> Reaches(Succ(forward), z, id)
      modifies this
      decreases |forward.Keys - s.indices.Keys|, 0
      ensures Busy(s, id, done + {next})
      ensures KeepsLowlinks(old(lowlinks) - {id}, lowlinks)
    {
      ghost var t := State();
      SoundKeys(forward, t, onStack, lowlinks.Keys, cyclicNodes);
      BeforeFollow(forward, s, id, t, lowlinks[id], done, next);
      assert t.indices == indices && t.gray == gray && t.stack == stack;
      assert Inv(forward, s) && Scanning(forward, s, id, t, lowlinks[id], done);
      hide *;
      if next !in indices {
        Visit(next);
        KeptLowlink(old(lowlinks), lowlinks, id);
        ScanNew(forward, s, id, t, lowlinks[id], done, next, State(), lowlinks[next]);
        KeptUpdate(old(lowlinks), lowlinks, id, Min(lowlinks[id], lowlinks[next]));
        LowerLowlink(s, id, done + {next}, Min(lowlinks[id], lowlinks[next]));
      } else {
        ScanSeen(forward, s, id, t, lowlinks[id], done, next);
        KeptSame(lowlinks);
        var low := if next in onStack then Min(lowlinks[id], indices[next]) else lowlinks[id];
        KeptUpdate(lowlinks, lowlinks, id, low);
        LowerLowlink(s, id, done + {next}, low);
      }
    }

    method LowerLowlink(ghost s: Pass, id: Id, ghost done: set<Id>, low: nat)
      requires Valid() && id in lowlinks && id in forward && id !in s.indices && Inv(forward, s)
      requires Scanning(forward, s, id, State(), low, done)
      modifies `lowlinks
      ensures lowlinks == old(lowlinks)[id := low] && Busy(s, id, done)
    {
      hide Sound;
      hide Inv;
      hide Scanning;
      lowlinks := lowlinks[id := low];
      assert lowlinks.Keys == old(lowlinks).Keys;
    }

    /** The end of a visit: pop the component when `id` is its root. */
    method Leave(ghost s: Pass, id: Id)
      requires Busy(s, id, Succ(forward)(id))
      modifies this
      ensures Valid() && id in lowlinks && lowlinks == old(lowlinks)
      ensures Visited(forward, s, id, State(), lowlinks[id])
    {
      hide Reaches;
      hide Inv;
      hide Scanning;
      hide Visited;
      ghost var t := State();
      ScanPosition(forward, s, id, t, lowlinks[id], Succ(forward)(id));
      if lowlinks[id] != indices[id] {
        gray := s.gray;
        ReturnStacked(forward, s, onStack, lowlinks.Keys, cyclicNodes, id, t, lowlinks[id], State());
        return;
      }
      ReturnRoot(forward, s, onStack, lowlinks.Keys, cyclicNodes, id, t, t.(stack := s.stack, gray := s.gray));
      PopComponent(id, |s.stack|);
      gray := s.gray;
      hide Sound;
    }

    /** Pops the component of `id`, whose root sits at position `base` of the stack. */
    method PopComponent(id: Id, ghost base: nat)
      requires Ordered(State()) && onStack == Elems(stack)
      requires base < |stack| && stack[base] == id && id in forward
      modifies `stack, `onStack, `cyclicNodes
      ensures stack == old(stack)[..base] && onStack == Elems(stack)
      ensures cyclicNodes == old(cyclicNodes) +
                             if |old(stack)| - base > 1 || id in forward[id] then Elems(old(stack)[base..]) else {}
    {
      hide Ordered;
      assert Elems([]) == {};
      hide Elems;
      ghost var full := State();
      ghost var k := |stack|;
      var component: set<Id> := {};
      var size := 0;
      var member := stack[|stack| - 1];
      assert full.stack[k..] == [];
      while true
        invariant base < k <= |full.stack| && stack == full.stack[..k]
        invariant component == Elems(full.stack[k..]) && size == |full.stack| - k
        invariant onStack == Elems(stack) && cyclicNodes == old(cyclicNodes)
        decreases k
      {
        PopElems(full, k);
        assert stack[..|stack| - 1] == full.stack[..k - 1];
        member := stack[|stack| - 1];
        stack := stack[..|stack| - 1];
        k := k - 1;
        onStack := onStack - {member};
        component := component + {member};
        size := size + 1;
        if member == id {
          RootPosition(full, base, k, id);
          break;
        }
      }
      if size > 1 || id in forward[id] {
        cyclicNodes := cyclicNodes + component;
      }
    }

    /** The driver: visit every vertex not yet indexed. */
    method Run()
      requires Valid() && indices == map[] && gray == {} && stack == []
      modifies this
      ensures Valid() && indices.Keys == forward.Keys
      ensures forall x :: x in cyclicNodes <==> x in forward && Cyclic(forward, x)
    {
      var ids := forward.Keys;
      while ids != {}
        invariant ids <= forward.Keys && Valid() && gray == {}
        invariant forward.Keys - ids <= indices.Keys
        decreases |ids|
      {
        var id :| id in ids;
        ids := ids - {id};
        if id !in indices {
          Visit(id);
        }
      }
      if stack != [] {
        StackNeedsRunning(forward, State(), stack[0]);
      }
    }
  }

  /** What a nested visit of `next` needs: the running vertices reach it and fewer vertices are left. */
  lemma BeforeFollow(g: Digraph, s: Pass, id: Id, t: Pass, low: nat, done: set<Id>, next: Id)
    requires WellFormed(g) && id in g && id !in s.indices
    requires forall z :: z in s.gray ==> Reaches(Succ(g), z, id)
    requires Scanning(g, s, id, t, low, done) && next in g[id]
    ensures next in g && next in Succ(g)(id) && id in t.indices && s.indices.Keys <= t.indices.Keys
    ensures forall z :: z in t.gray ==> Reaches(Succ(g), z, next)
    ensures |g.Keys - t.indices.Keys| < |g.Keys - s.indices.Keys|
  {
    hide Reaches;
    hide Inv;
    Edge(Succ(g), id, next);
    forall z | z in s.gray
      ensures Reaches(Succ(g), z, next)
    {
      Trans(Succ(g), z, id, next);
    }
    Shrinks(g.Keys, s.indices.Keys, t.indices.Keys, id);
  }

  ghost predicate KeepsLowlinks(before: map<Id, nat>, now: map<Id, nat>) {
    forall x :: x in before ==> x in now && now[x] == before[x]
  }

  lemma KeptLowlink(before: map<Id, nat>, now: map<Id, nat>, x: Id)
    requires KeepsLowlinks(before, now) && x in before
    ensures x in now && now[x] == before[x]
  {
  }

  lemma KeptSame(before: map<Id, nat>)
    ensures KeepsLowlinks(before, before)
  {
  }

  lemma KeptUpdate(before: map<Id, nat>, now: map<Id, nat>, x: Id, low: nat)
    requires KeepsLowlinks(before, now) && x in now
    ensures KeepsLowlinks(before - {x}, now[x := low]) && now[x := low].Keys == now.Keys
  {
  }

  lemma KeptCompose(before: map<Id, nat>, mid: map<Id, nat>, now: map<Id, nat>, x: Id)
    requires KeepsLowlinks(before, mid) && KeepsLowlinks(mid - {x}, now) && x !in before
    ensures KeepsLowlinks(before, now)
  {
    forall y | y in before
      ensures y in now && now[y] == before[y]
    {
      assert y in mid - {x};
    }
  }

  lemma SoundKeys(g: Digraph, s: Pass, on: set<Id>, keys: set<Id>, cyclic: set<Id>)
    requires Sound(g, s, on, keys, cyclic)
    ensures WellFormed(g) && Inv(g, s) && keys == s.indices.Keys && on == Elems(s.stack)
    ensures forall x :: x in on <==> x in s.stack
  {
  }

  lemma Shrinks(all: set<Id>, before: set<Id>, now: set<Id>, id: Id)
    requires id in all && id !in before && before + {id} <= now
    ensures |all - now| < |all - before|
  {
    assert all - now <= all - before - {id};
    Subset(all - now, all - before - {id});
  }

  lemma {:induction false} Subset<T>(a: set<T>, b: set<T>)
    requires a <= b
    ensures |a| <= |b|
  {
    assert b == a + (b - a);
  }

  /** The bound after a nested visit covers both what was stacked before it and what it stacked. */
  lemma MergeBounds(g: Digraph, s: Pass, base: seq<Id>, before: seq<Id>, low: nat, sub: nat)
    requires |base| < |before| <= |s.stack| && s.stack[..|before|] == before && before[..|base|] == base
    requires Bounds(g, s, Elems(before[|base| + 1..]), Elems(base), low)
    requires Bounds(g, s, Elems(s.stack[|before|..]), Elems(before), sub)
    ensures Bounds(g, s, Elems(s.stack[|base| + 1..]), Elems(base), if low < sub then low else sub)
  {
    assert s.stack[|base| + 1..] == before[|base| + 1..] + s.stack[|before|..];
    assert before == base + before[|base|..];
  }

  /** Popping the top of an ordered stack removes exactly that vertex. */
  lemma PopElems(t: Pass, k: nat)
    requires Ordered(t) && 0 < k <= |t.stack|
    ensures Elems(t.stack[..k - 1]) == Elems(t.stack[..k]) - {t.stack[k - 1]}
    ensures Elems(t.stack[k - 1..]) == Elems(t.stack[k..]) + {t.stack[k - 1]}
  {
    var x := t.stack[k - 1];
    assert t.stack[..k] == t.stack[..k - 1] + [x];
    assert t.stack[k - 1..] == [x] + t.stack[k..];
    assert forall i :: 0 <= i < k - 1 ==> t.stack[i] in t.indices && t.indices[t.stack[i]] < t.indices[x];
    assert x !in t.stack[..k - 1];
  }

  lemma RootPosition(t: Pass, base: nat, k: nat, id: Id)
    requires Ordered(t) && base <= k < |t.stack| && t.stack[base] == id && t.stack[k] == id
    ensures k == base
  {
  }
}
