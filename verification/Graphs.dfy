/** Directed reachability, shared by every graph walk of the model. */
module Graphs {

  /** `p` lists the vertices visited after `a` on a walk that ends in `b`. */
  ghost predicate Walk<T(!new)>(next: T -> set<T>, a: T, p: seq<T>, b: T) {
    if p == [] then a == b
    else p[0] in next(a) && Walk(next, p[0], p[1..], b)
  }

  ghost predicate Reaches<T(!new)>(next: T -> set<T>, a: T, b: T) {
    exists p :: Walk(next, a, p, b)
  }

  /** `b` is reached from `a` in one step or more. */
  ghost predicate ReachesPlus<T(!new)>(next: T -> set<T>, a: T, b: T) {
    exists c :: c in next(a) && Reaches(next, c, b)
  }

  ghost predicate Closed<T(!new)>(next: T -> set<T>, s: set<T>) {
    forall x, y :: x in s && y in next(x) ==> y in s
  }

  ghost predicate Acyclic<T(!new)>(next: T -> set<T>) {
    forall x :: !ReachesPlus(next, x, x)
  }

  lemma Refl<T(!new)>(next: T -> set<T>, a: T)
    ensures Reaches(next, a, a)
  {
    assert Walk(next, a, [], a);
  }

  lemma {:induction false} WalkConcat<T(!new)>(next: T -> set<T>, a: T, p: seq<T>, b: T, q: seq<T>, c: T)
    requires Walk(next, a, p, b) && Walk(next, b, q, c)
    ensures Walk(next, a, p + q, c)
  {
    if p == [] {
      assert p + q == q;
    } else {
      WalkConcat(next, p[0], p[1..], b, q, c);
      assert (p + q)[1..] == p[1..] + q;
    }
  }

  lemma Trans<T(!new)>(next: T -> set<T>, a: T, b: T, c: T)
    requires Reaches(next, a, b) && Reaches(next, b, c)
    ensures Reaches(next, a, c)
  {
    var p :| Walk(next, a, p, b);
    var q :| Walk(next, b, q, c);
    WalkConcat(next, a, p, b, q, c);
  }

  lemma Edge<T(!new)>(next: T -> set<T>, a: T, b: T)
    requires b in next(a)
    ensures Reaches(next, a, b) && ReachesPlus(next, a, b)
  {
    Refl(next, b);
    assert Walk(next, a, [b], b);
  }

  lemma Snoc<T(!new)>(next: T -> set<T>, a: T, b: T, c: T)
    requires Reaches(next, a, b) && c in next(b)
    ensures Reaches(next, a, c)
  {
    Edge(next, b, c);
    Trans(next, a, b, c);
  }

  lemma PlusReaches<T(!new)>(next: T -> set<T>, a: T, b: T)
    requires ReachesPlus(next, a, b)
    ensures Reaches(next, a, b)
  {
    var c :| c in next(a) && Reaches(next, c, b);
    Edge(next, a, c);
    Trans(next, a, c, b);
  }

  lemma PlusTrans<T(!new)>(next: T -> set<T>, a: T, b: T, c: T)
    requires (ReachesPlus(next, a, b) && Reaches(next, b, c)) || (Reaches(next, a, b) && ReachesPlus(next, b, c))
    ensures ReachesPlus(next, a, c)
  {
    if ReachesPlus(next, a, b) && Reaches(next, b, c) {
      var d :| d in next(a) && Reaches(next, d, b);
      Trans(next, d, b, c);
    } else {
      Split(next, a, b);
      if a != b {
        var d :| d in next(a) && Reaches(next, d, b);
        PlusReaches(next, b, c);
        Trans(next, d, b, c);
      }
    }
  }

  /** A walk is empty or starts with an edge. */
  lemma Split<T(!new)>(next: T -> set<T>, a: T, b: T)
    requires Reaches(next, a, b)
    ensures a == b || ReachesPlus(next, a, b)
  {
    var p :| Walk(next, a, p, b);
    if p != [] {
      assert Walk(next, p[0], p[1..], b);
    }
  }

  lemma {:induction false} WalkStays<T(!new)>(next: T -> set<T>, s: set<T>, a: T, p: seq<T>, b: T)
    requires Closed(next, s) && a in s && Walk(next, a, p, b)
    ensures b in s
    decreases |p|
  {
    if p != [] {
      WalkStays(next, s, p[0], p[1..], b);
    }
  }

  /** Nothing outside a closed set is reached from inside it. */
  lemma Stays<T(!new)>(next: T -> set<T>, s: set<T>, a: T, b: T)
    requires Closed(next, s) && a in s && Reaches(next, a, b)
    ensures b in s
  {
    var p :| Walk(next, a, p, b);
    WalkStays(next, s, a, p, b);
  }

  lemma {:induction false} WalkMono<T(!new)>(n1: T -> set<T>, n2: T -> set<T>, a: T, p: seq<T>, b: T)
    requires forall x :: n1(x) <= n2(x)
    requires Walk(n1, a, p, b)
    ensures Walk(n2, a, p, b)
    decreases |p|
  {
    if p != [] {
      WalkMono(n1, n2, p[0], p[1..], b);
    }
  }

  /** Adding edges keeps what was reachable. */
  lemma Mono<T(!new)>(n1: T -> set<T>, n2: T -> set<T>, a: T, b: T)
    requires forall x :: n1(x) <= n2(x)
    requires Reaches(n1, a, b)
    ensures Reaches(n2, a, b)
  {
    var p :| Walk(n1, a, p, b);
    WalkMono(n1, n2, a, p, b);
  }

  lemma {:induction false} WalkDescends<T(!new)>(next: T -> set<T>, rank: T -> int, s: set<T>, a: T, p: seq<T>, b: T)
    requires forall x, y :: x in s && y in next(x) ==> y in s && rank(y) < rank(x)
    requires a in s && Walk(next, a, p, b)
    ensures b in s && rank(b) <= rank(a) - |p|
    decreases |p|
  {
    if p != [] {
      WalkDescends(next, rank, s, p[0], p[1..], b);
    }
  }

  /** A rank that falls along every edge out of `s` excludes cycles through `s`. */
  lemma RankAcyclic<T(!new)>(next: T -> set<T>, rank: T -> int, s: set<T>, a: T)
    requires forall x, y :: x in s && y in next(x) ==> y in s && rank(y) < rank(x)
    requires a in s
    ensures !ReachesPlus(next, a, a)
  {
    if ReachesPlus(next, a, a) {
      var c :| c in next(a) && Reaches(next, c, a);
      var p :| Walk(next, c, p, a);
      WalkDescends(next, rank, s, c, p, a);
    }
  }

  // ---------------------------------------------------------------------
  // Replacing the successors of one vertex

  ghost predicate AgreeExcept<T(!new)>(n1: T -> set<T>, n2: T -> set<T>, r: T) {
    forall x :: x != r ==> n1(x) == n2(x)
  }

  lemma {:induction false} WalkAgree<T(!new)>(n1: T -> set<T>, n2: T -> set<T>, a: T, p: seq<T>, r: T)
    requires AgreeExcept(n1, n2, r) && Walk(n1, a, p, r)
    ensures Reaches(n2, a, r)
    decreases |p|
  {
    if a == r || p == [] {
      Refl(n2, a);
    } else {
      WalkAgree(n1, n2, p[0], p[1..], r);
      Edge(n2, a, p[0]);
      Trans(n2, a, p[0], r);
    }
  }

  /** What reaches `r` does not depend on where `r` leads. */
  lemma ReachAgree<T(!new)>(n1: T -> set<T>, n2: T -> set<T>, a: T, r: T)
    requires AgreeExcept(n1, n2, r) && Reaches(n1, a, r)
    ensures Reaches(n2, a, r)
  {
    var p :| Walk(n1, a, p, r);
    WalkAgree(n1, n2, a, p, r);
  }

  /** A walk either avoids the successors of `r` or passes through `r`. */
  lemma {:induction false} WalkVia<T(!new)>(n1: T -> set<T>, n2: T -> set<T>, a: T, p: seq<T>, b: T, r: T)
    requires AgreeExcept(n1, n2, r) && Walk(n2, a, p, b)
    ensures Reaches(n1, a, b) || (Reaches(n2, a, r) && Reaches(n2, r, b))
    decreases |p|
  {
    if p == [] {
      Refl(n1, a);
    } else if a == r {
      Refl(n2, a);
      assert Reaches(n2, r, b);
    } else {
      WalkVia(n1, n2, p[0], p[1..], b, r);
      Edge(n1, a, p[0]);
      Edge(n2, a, p[0]);
      if Reaches(n1, p[0], b) {
        Trans(n1, a, p[0], b);
      } else {
        Trans(n2, a, p[0], r);
      }
    }
  }

  /**
   * Giving one vertex new successors closes a cycle in an acyclic relation exactly
   * when some new successor already reached that vertex.
   */
  lemma RewireCycle<T(!new)>(n1: T -> set<T>, n2: T -> set<T>, r: T)
    requires AgreeExcept(n1, n2, r) && Acyclic(n1)
    ensures !Acyclic(n2) <==> exists c :: c in n2(r) && Reaches(n1, c, r)
  {
    if c :| c in n2(r) && Reaches(n1, c, r) {
      ReachAgree(n1, n2, c, r);
      assert ReachesPlus(n2, r, r);
    }
    if !Acyclic(n2) {
      var x :| ReachesPlus(n2, x, x);
      RewiredThrough(n1, n2, r, x);
      var c :| c in n2(r) && Reaches(n2, c, r);
      ReachAgree(n2, n1, c, r);
    }
  }

  lemma RewiredThrough<T(!new)>(n1: T -> set<T>, n2: T -> set<T>, r: T, x: T)
    requires AgreeExcept(n1, n2, r) && Acyclic(n1) && ReachesPlus(n2, x, x)
    ensures ReachesPlus(n2, r, r)
  {
    if x != r {
      var c :| c in n2(x) && Reaches(n2, c, x);
      var p :| Walk(n2, c, p, x);
      WalkVia(n1, n2, c, p, x, r);
      assert !ReachesPlus(n1, x, x);
      assert Reaches(n2, c, r) && Reaches(n2, r, x);
      Split(n2, r, x);
      Edge(n2, x, c);
      Trans(n2, x, c, r);
      PlusTrans(n2, r, x, r);
    }
  }

  // ---------------------------------------------------------------------
  // Worklist search: `seen` was processed, `stack` is still to be processed

  ghost predicate Frontier<T(!new)>(next: T -> set<T>, from: T, seen: set<T>, stack: seq<T>) {
    && (from in seen || from in stack)
    && (forall x {:trigger next(x)} :: x in seen ==> forall y :: y in next(x) ==> y in seen || y in stack)
    && (forall x {:trigger Reaches(next, from, x)} :: x in seen || x in stack ==> Reaches(next, from, x))
  }

  lemma FrontierStart<T(!new)>(next: T -> set<T>, from: T)
    ensures Frontier(next, from, {}, [from])
  {
    Refl(next, from);
  }

  /** Processing the popped vertex: exactly its successors join the stack. */
  lemma FrontierStep<T(!new)>(next: T -> set<T>, from: T, seen: set<T>, stack: seq<T>, x: T, more: seq<T>)
    requires Frontier(next, from, seen, stack + [x])
    requires forall y :: y in more <==> y in next(x)
    ensures Frontier(next, from, seen + {x}, stack + more)
  {
    assert x in stack + [x];
    assert Reaches(next, from, x);
    forall y | y in more
      ensures Reaches(next, from, y)
    {
      Snoc(next, from, x, y);
    }
    forall y | y in stack
      ensures Reaches(next, from, y)
    {
      assert y in stack + [x];
    }
    assert forall y :: y in stack + [x] ==> y in stack || y == x;
    assert forall y :: y in stack + more <==> y in stack || y in more;
  }

  lemma FrontierSkip<T(!new)>(next: T -> set<T>, from: T, seen: set<T>, stack: seq<T>, x: T)
    requires Frontier(next, from, seen, stack + [x]) && x in seen
    ensures Frontier(next, from, seen, stack)
  {
    assert forall y :: y in stack + [x] <==> y in stack || y == x;
  }

  /** With nothing left to process, the processed vertices are exactly the reachable ones. */
  lemma FrontierDone<T(!new)>(next: T -> set<T>, from: T, seen: set<T>)
    requires Frontier(next, from, seen, [])
    ensures forall x :: x in seen <==> Reaches(next, from, x)
  {
    assert Closed(next, seen);
    forall x | Reaches(next, from, x)
      ensures x in seen
    {
      Stays(next, seen, from, x);
    }
  }

  // ---------------------------------------------------------------------
  // Relations with at most one successor

  ghost predicate Deterministic<T(!new)>(next: T -> set<T>) {
    forall x, y, z :: y in next(x) && z in next(x) ==> y == z
  }

  lemma {:induction false} OrbitReturns<T(!new)>(next: T -> set<T>, a: T, p: seq<T>, b: T)
    requires Deterministic(next) && ReachesPlus(next, a, a) && Walk(next, a, p, b)
    ensures ReachesPlus(next, b, b)
    decreases |p|
  {
    if p != [] {
      var c :| c in next(a) && Reaches(next, c, a);
      assert c == p[0];
      Edge(next, a, c);
      PlusTrans(next, c, a, c);
      OrbitReturns(next, p[0], p[1..], b);
    }
  }

  /** The walk from `a` cannot both loop and stop. */
  lemma {:induction false} LoopNeverStops<T(!new)>(next: T -> set<T>, a: T, p: seq<T>, e: T, q: seq<T>, h: T)
    requires Deterministic(next) && Walk(next, a, p, e) && ReachesPlus(next, e, e) && Walk(next, a, q, h)
    ensures next(h) != {}
    decreases |p|
  {
    if p == [] {
      OrbitReturns(next, a, q, h);
    } else if q != [] {
      assert p[0] == q[0];
      LoopNeverStops(next, p[0], p[1..], e, q[1..], h);
    }
  }

  /** A deterministic walk ends in one place only. */
  lemma {:induction false} EndsOnce<T(!new)>(next: T -> set<T>, a: T, p: seq<T>, e: T, q: seq<T>, h: T)
    requires Deterministic(next) && Walk(next, a, p, e) && next(e) == {} && Walk(next, a, q, h) && next(h) == {}
    ensures e == h
    decreases |p|
  {
    if p != [] && q != [] {
      assert p[0] == q[0];
      EndsOnce(next, p[0], p[1..], e, q[1..], h);
    }
  }

  /** A nonempty walk has a last edge. */
  lemma {:induction false} LastStep<T(!new)>(next: T -> set<T>, a: T, p: seq<T>, b: T) returns (x: T)
    requires Walk(next, a, p, b) && p != []
    ensures Reaches(next, a, x) && b in next(x)
    decreases |p|
  {
    if p[1..] == [] {
      Refl(next, a);
      x := a;
    } else {
      x := LastStep(next, p[0], p[1..], b);
      Edge(next, a, p[0]);
      Trans(next, a, p[0], x);
    }
  }

  lemma PlusMono<T(!new)>(small: T -> set<T>, large: T -> set<T>, a: T, b: T)
    requires ReachesPlus(small, a, b) && forall x :: small(x) <= large(x)
    ensures ReachesPlus(large, a, b)
  {
    var c :| c in small(a) && Reaches(small, c, b);
    Mono(small, large, c, b);
  }

  lemma AcyclicMono<T(!new)>(small: T -> set<T>, large: T -> set<T>)
    requires Acyclic(large) && forall x :: small(x) <= large(x)
    ensures Acyclic(small)
  {
    forall x
      ensures !ReachesPlus(small, x, x)
    {
      if ReachesPlus(small, x, x) {
        PlusMono(small, large, x, x);
      }
    }
  }
}
