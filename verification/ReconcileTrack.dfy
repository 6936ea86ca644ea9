/**
 * Generation-tracked supersession of reconciliation passes: calls for one key share a promise,
 * and one loop reruns the pass until no call came since it began.
 */
module ReconcileTrack {
  import opened Identity

  /** The record kept for a key. */
  datatype Track = Track(generation: nat, promise: Option<nat>)

  /** A running owner loop: its promise, the generation its pass serves, and when that pass began. */
  datatype Loop = Loop(key: Id, promise: nat, ran: nat, began: nat)

  /** A call made at a time, and the promise it was given. */
  datatype Answer = Answer(key: Id, at: nat, promise: nat)

  /** A promise settled at a time, by the pass that began at `began`. */
  datatype Settlement = Settlement(key: Id, promise: nat, ok: bool, began: nat, at: nat)

  datatype World = World(clock: nat, tracks: map<Id, Track>, loops: seq<Loop>, nextPromise: nat,
                         answers: seq<Answer>, settled: seq<Settlement>, begun: seq<Id>)

  const START: World := World(0, map[], [], 0, [], [], [])

  function TrackOf(w: World, key: Id): Track {
    if key in w.tracks then w.tracks[key] else Track(0, None)
  }

  /** A call joins the promise in flight, or becomes the owner of a new loop whose pass begins at once. */
  function Call(w: World, key: Id): World {
    var t := TrackOf(w, key);
    var g := t.generation + 1;
    match t.promise
    case Some(p) =>
      w.(clock := w.clock + 1, tracks := w.tracks[key := Track(g, Some(p))],
        answers := w.answers + [Answer(key, w.clock, p)])
    case None =>
      var p := w.nextPromise;
      w.(clock := w.clock + 1, tracks := w.tracks[key := Track(g, Some(p))], nextPromise := p + 1,
         loops := w.loops + [Loop(key, p, g, w.clock)], begun := w.begun + [key],
         answers := w.answers + [Answer(key, w.clock, p)])
  }

  /** Whether a pass still answers the newest call. */
  predicate IsCurrent(w: World, l: Loop) {
    TrackOf(w, l.key).generation == l.ran
  }

  /** The pass of loop `i` ends: the loop settles if its pass is current, and reruns the pass otherwise. */
  function PassEnds(w: World, i: nat, ok: bool): World
    requires i < |w.loops|
  {
    var l := w.loops[i];
    var t := TrackOf(w, l.key);
    if IsCurrent(w, l) then
      w.(clock := w.clock + 1, tracks := w.tracks[l.key := Track(t.generation, None)],
         loops := w.loops[..i] + w.loops[i + 1..],
           settled := w.settled + [Settlement(l.key, l.promise, ok, l.began, w.clock)])
    else
      w.(clock := w.clock + 1, loops := w.loops[i := Loop(l.key, l.promise, t.generation, w.clock)],
        begun := w.begun + [l.key])
  }

  datatype Step = CallStep(key: Id) | EndStep(loop: nat, ok: bool)

  function Next(w: World, s: Step): World {
    match s
    case CallStep(key) => Call(w, key)
    case EndStep(i, ok) => if i < |w.loops| then PassEnds(w, i, ok) else w
  }

  function Run(steps: seq<Step>): World {
    if steps == [] then START else Next(Run(steps[..|steps| - 1]), steps[|steps| - 1])
  }

  function Count(keys: seq<Id>, key: Id): nat {
    if keys == [] then 0 else Count(keys[..|keys| - 1], key) + if keys[|keys| - 1] == key then 1 else 0
  }

  function Calls(answers: seq<Answer>, key: Id): nat {
    if answers == [] then 0 else Calls(answers[..|answers| - 1], key) + if answers[|answers| - 1].key == key then 1
    else 0
  }

  function Settled(settled: seq<Settlement>, key: Id): nat {
    if settled == [] then 0
    else Settled(settled[..|settled| - 1], key) + if settled[|settled| - 1].key == key then 1 else 0
  }

  /** One if a loop runs for the key. */
  function Running(w: World, key: Id): nat {
    if TrackOf(w, key).promise.Some? then 1 else 0
  }

  // ---------------------------------------------------------------------
  // The invariant

  /** The loops and the tracks agree: one loop for each promise in flight. */
  ghost predicate LoopsGood(w: World) {
    && (forall i, j :: 0 <= i < j < |w.loops| ==> w.loops[i].key != w.loops[j].key)
    && (forall i :: 0 <= i < |w.loops| ==>
          TrackOf(w, w.loops[i].key).promise == Some(w.loops[i].promise)
            && w.loops[i].ran <= TrackOf(w, w.loops[i].key).generation
          && w.loops[i].began < w.clock && w.loops[i].promise < w.nextPromise)
    && (forall key :: TrackOf(w, key).promise.Some? ==> HasLoop(w, key))
    && (forall i, j :: 0 <= i < j < |w.loops| ==> w.loops[i].promise != w.loops[j].promise)
  }

  ghost predicate HasLoop(w: World, key: Id) {
    exists i :: 0 <= i < |w.loops| && w.loops[i].key == key
  }

  /** The loop that will settle a call's promise is still running. */
  ghost predicate Awaited(loops: seq<Loop>, a: Answer) {
    exists i :: 0 <= i < |loops| && loops[i].promise == a.promise && loops[i].key == a.key
  }

  ghost predicate SettledBy(settled: seq<Settlement>, a: Answer) {
    exists j ::
      0 <= j < |settled| && settled[j].promise == a.promise && settled[j].key == a.key && a.at <= settled[j].began
  }

  ghost predicate AnswersGood(w: World) {
    && (forall k :: 0 <= k < |w.answers| ==>
          w.answers[k].at < w.clock && w.answers[k].promise < w.nextPromise
          && (Awaited(w.loops, w.answers[k]) || SettledBy(w.settled, w.answers[k])))
    && (forall j :: 0 <= j < |w.settled| ==> w.settled[j].promise < w.nextPromise && w.settled[j].at < w.clock)
    && (forall i, j :: 0 <= i < |w.loops| && 0 <= j < |w.settled| ==> w.loops[i].promise != w.settled[j].promise)
    && (forall i, j :: 0 <= i < j < |w.settled| ==> w.settled[i].promise != w.settled[j].promise)
  }

  /** Each settlement was the verdict of a pass no call had superseded. */
  ghost predicate Unsuperseded(w: World) {
    forall j, k ::
      0 <= j < |w.settled| && 0 <= k < |w.answers| && w.answers[k].key == w.settled[j].key
        && w.answers[k].at < w.settled[j].at
      ==> w.answers[k].at <= w.settled[j].began
  }

  /** Every call of a live loop's key so far came before its pass began, or superseded it. */
  ghost predicate Noticed(w: World) {
    forall i, k :: 0 <= i < |w.loops| && 0 <= k < |w.answers| && w.answers[k].key == w.loops[i].key
      ==> w.answers[k].at <= w.loops[i].began || w.loops[i].ran < TrackOf(w, w.loops[i].key).generation
  }

  /** No more passes than calls, and at least one for each promise: a loop's pass is at most the `ran`-th. */
  ghost predicate Counted(w: World) {
    && (forall key ::
       && Calls(w.answers, key) == TrackOf(w, key).generation && Count(w.begun, key) <= TrackOf(w, key).generation
       && Settled(w.settled, key) + Running(w, key) <= Count(w.begun, key))
    && (forall i :: 0 <= i < |w.loops| ==> Count(w.begun, w.loops[i].key) <= w.loops[i].ran)
  }

  ghost predicate Inv(w: World) {
    LoopsGood(w) && AnswersGood(w) && Noticed(w) && Unsuperseded(w) && Counted(w)
  }

  lemma CallLoops(w: World, key: Id)
    requires LoopsGood(w)
    ensures LoopsGood(Call(w, key))
  {
    var w' := Call(w, key);
    forall x | TrackOf(w', x).promise.Some?
      ensures HasLoop(w', x)
    {
      if TrackOf(w, x).promise.Some? {
        var i :| 0 <= i < |w.loops| && w.loops[i].key == x;
        assert w'.loops[i].key == x;
      } else {
        assert w'.loops[|w.loops|].key == x;
      }
    }
  }

  lemma AwaitedMore(loops: seq<Loop>, more: seq<Loop>, a: Answer)
    requires Awaited(loops, a)
    ensures Awaited(loops + more, a)
  {
    var i :| 0 <= i < |loops| && loops[i].promise == a.promise && loops[i].key == a.key;
    assert (loops + more)[i] == loops[i];
  }

  lemma CallAnswers(w: World, key: Id)
    requires LoopsGood(w) && AnswersGood(w)
    ensures AnswersGood(Call(w, key))
  {
    var w', t := Call(w, key), TrackOf(w, key);
    ghost var more := w'.loops[|w.loops|..];
    assert w'.loops == w.loops + more;
    var last := w'.answers[|w.answers|];
    assert Awaited(w'.loops, last) by {
      if t.promise.Some? {
        assert HasLoop(w, key);
        var i :| 0 <= i < |w.loops| && w.loops[i].key == key;
        assert w'.loops[i].promise == last.promise;
      } else {
        assert w'.loops[|w.loops|].promise == last.promise;
      }
    }
    hide Awaited;
    hide SettledBy;
    hide HasLoop;
    forall k | 0 <= k < |w.answers|
      ensures Awaited(w'.loops, w.answers[k]) || SettledBy(w'.settled, w.answers[k])
    {
      if Awaited(w.loops, w.answers[k]) {
        AwaitedMore(w.loops, more, w.answers[k]);
      }
    }
  }

  lemma CallNoticed(w: World, key: Id)
    requires LoopsGood(w) && AnswersGood(w) && Noticed(w) && Unsuperseded(w)
    ensures Noticed(Call(w, key)) && Unsuperseded(Call(w, key))
  {
    hide Awaited;
    hide SettledBy;
    hide HasLoop;
  }

  lemma CountAppend(keys: seq<Id>, key: Id, x: Id)
    ensures Count(keys + [key], x) == Count(keys, x) + if key == x then 1 else 0
  {
    assert (keys + [key])[..|keys|] == keys;
  }

  lemma CallsAppend(answers: seq<Answer>, a: Answer, x: Id)
    ensures Calls(answers + [a], x) == Calls(answers, x) + if a.key == x then 1 else 0
  {
    assert (answers + [a])[..|answers|] == answers;
  }

  lemma SettledAppend(settled: seq<Settlement>, a: Settlement, x: Id)
    ensures Settled(settled + [a], x) == Settled(settled, x) + if a.key == x then 1 else 0
  {
    assert (settled + [a])[..|settled|] == settled;
  }

  lemma CallCounted(w: World, key: Id)
    requires LoopsGood(w) && Counted(w)
    ensures Counted(Call(w, key))
  {
    var w' := Call(w, key);
    hide Calls;
    hide Count;
    hide Settled;
    hide HasLoop;
    forall x
      ensures Calls(w'.answers, x) == TrackOf(w', x).generation && Count(w'.begun, x) <= TrackOf(w', x).generation
      ensures Settled(w'.settled, x) + Running(w', x) <= Count(w'.begun, x)
    {
      CallsAppend(w.answers, w'.answers[|w.answers|], x);
      CountAppend(w.begun, key, x);
    }
    forall i | 0 <= i < |w'.loops|
      ensures Count(w'.begun, w'.loops[i].key) <= w'.loops[i].ran
    {
      if i < |w.loops| {
        CountAppend(w.begun, key, w.loops[i].key);
      }
    }
  }

  // ---------------------------------------------------------------------
  // The end of a pass

  lemma RerunInv(w: World, i: nat, ok: bool)
    requires Inv(w) && i < |w.loops| && !IsCurrent(w, w.loops[i])
    ensures Inv(PassEnds(w, i, ok))
  {
    var w', l := PassEnds(w, i, ok), w.loops[i];
    assert forall x :: TrackOf(w', x) == TrackOf(w, x);
    assert forall j ::
      0 <= j < |w.loops| ==> w'.loops[j].key == w.loops[j].key && w'.loops[j].promise == w.loops[j].promise;
    forall x | HasLoop(w, x)
      ensures HasLoop(w', x)
    {
      var j :| 0 <= j < |w.loops| && w.loops[j].key == x;
      assert w'.loops[j].key == x;
    }
    assert LoopsGood(w') by {
      hide HasLoop;
    }
    forall a | Awaited(w.loops, a)
      ensures Awaited(w'.loops, a)
    {
      var j :| 0 <= j < |w.loops| && w.loops[j].promise == a.promise && w.loops[j].key == a.key;
      assert w'.loops[j].promise == a.promise;
    }
    RerunRest(w, i, ok);
  }

  lemma RerunRest(w: World, i: nat, ok: bool)
    requires LoopsGood(w) && AnswersGood(w) && Noticed(w) && Unsuperseded(w) && Counted(w)
    requires i < |w.loops| && !IsCurrent(w, w.loops[i])
    requires forall a :: Awaited(w.loops, a) ==> Awaited(PassEnds(w, i, ok).loops, a)
    ensures AnswersGood(PassEnds(w, i, ok)) && Noticed(PassEnds(w, i, ok)) && Unsuperseded(PassEnds(w, i, ok))
    ensures Counted(PassEnds(w, i, ok))
  {
    var w', l := PassEnds(w, i, ok), w.loops[i];
    assert w'.begun[..|w.begun|] == w.begun;
    assert forall x :: Count(w'.begun, x) == Count(w.begun, x) + if x == l.key then 1 else 0;
    assert forall x :: Running(w', x) == Running(w, x);
    hide Settled;
    assert w'.loops[i].key == l.key && forall j :: 0 <= j < |w.loops| && j != i ==> w'.loops[j] == w.loops[j];
    hide Awaited;
    hide SettledBy;
    hide HasLoop;
    hide Calls;
    hide Count;
  }

  /** Loop `i` leaves: every other loop stays, one place lower behind it. */
  lemma Removed(loops: seq<Loop>, i: nat)
    requires i < |loops|
    ensures var rest := loops[..i] + loops[i + 1..];
            && (forall j :: 0 <= j < |rest| ==> rest[j] == loops[if j < i then j else j + 1])
            && (forall l :: l in loops && l != loops[i] ==> l in rest)
  {
    var rest := loops[..i] + loops[i + 1..];
    forall l | l in loops && l != loops[i]
      ensures l in rest
    {
      var k :| 0 <= k < |loops| && loops[k] == l;
      assert rest[if k < i then k else k - 1] == l;
    }
  }

  lemma SettleLoops(w: World, i: nat, ok: bool)
    requires LoopsGood(w) && i < |w.loops| && IsCurrent(w, w.loops[i])
    ensures LoopsGood(PassEnds(w, i, ok))
  {
    var w', l := PassEnds(w, i, ok), w.loops[i];
    Removed(w.loops, i);
    assert forall x :: x != l.key ==> TrackOf(w', x) == TrackOf(w, x);
    forall x | TrackOf(w', x).promise.Some?
      ensures HasLoop(w', x)
    {
      assert HasLoop(w, x);
      var j :| 0 <= j < |w.loops| && w.loops[j].key == x;
      assert w.loops[j] in w'.loops;
    }
    hide HasLoop;
  }

  lemma SettleAnswers(w: World, i: nat, ok: bool)
    requires LoopsGood(w) && AnswersGood(w) && Noticed(w) && i < |w.loops| && IsCurrent(w, w.loops[i])
    ensures AnswersGood(PassEnds(w, i, ok))
  {
    var w', l := PassEnds(w, i, ok), w.loops[i];
    Removed(w.loops, i);
    forall k | 0 <= k < |w.answers|
      ensures Awaited(w'.loops, w.answers[k]) || SettledBy(w'.settled, w.answers[k])
    {
      SettleOne(w, i, ok, k);
    }
    hide Awaited;
    hide SettledBy;
    hide HasLoop;
  }

  /** A call awaiting the loop that settles was made before its pass began. */
  lemma SettleOne(w: World, i: nat, ok: bool, k: nat)
    requires LoopsGood(w) && AnswersGood(w) && Noticed(w) && i < |w.loops| && IsCurrent(w, w.loops[i])
             && k < |w.answers|
    ensures Awaited(PassEnds(w, i, ok).loops, w.answers[k]) || SettledBy(PassEnds(w, i, ok).settled, w.answers[k])
  {
    var w', l, a := PassEnds(w, i, ok), w.loops[i], w.answers[k];
    hide LoopsGood;
    hide HasLoop;
    if SettledBy(w.settled, a) {
      var j :| 0 <= j < |w.settled| && w.settled[j].promise == a.promise && w.settled[j].key == a.key
        && a.at <= w.settled[j].began;
      assert w'.settled[j] == w.settled[j];
    } else {
      assert Awaited(w.loops, a);
      var j :| 0 <= j < |w.loops| && w.loops[j].promise == a.promise && w.loops[j].key == a.key;
      if j == i {
        assert w'.settled[|w.settled|].promise == a.promise;
      } else {
        Removed(w.loops, i);
        assert w'.loops[if j < i then j else j - 1] == w.loops[j];
      }
    }
  }

  lemma SettleRest(w: World, i: nat, ok: bool)
    requires LoopsGood(w) && AnswersGood(w) && Noticed(w) && Unsuperseded(w) && Counted(w) && i < |w.loops|
             && IsCurrent(w, w.loops[i])
    ensures Noticed(PassEnds(w, i, ok)) && Unsuperseded(PassEnds(w, i, ok)) && Counted(PassEnds(w, i, ok))
  {
    var w', l := PassEnds(w, i, ok), w.loops[i];
    Removed(w.loops, i);
    assert forall x :: TrackOf(w', x).generation == TrackOf(w, x).generation;
    forall x
      ensures Settled(w'.settled, x) + Running(w', x) == Settled(w.settled, x) + Running(w, x)
    {
      SettledAppend(w.settled, w'.settled[|w.settled|], x);
    }
    hide Settled;
    hide Awaited;
    hide SettledBy;
    hide HasLoop;
    hide Calls;
    hide Count;
  }

  lemma StepInv(w: World, s: Step)
    requires Inv(w)
    ensures Inv(Next(w, s))
  {
    match s
    case CallStep(key) =>
      CallLoops(w, key);
      CallAnswers(w, key);
      CallNoticed(w, key);
      CallCounted(w, key);
    case EndStep(i, ok) =>
      if i < |w.loops| {
        if IsCurrent(w, w.loops[i]) {
          SettleLoops(w, i, ok);
          SettleAnswers(w, i, ok);
          SettleRest(w, i, ok);
        } else {
          RerunInv(w, i, ok);
        }
      }
  }

  lemma {:induction false} RunInv(steps: seq<Step>)
    ensures Inv(Run(steps))
  {
    if steps != [] {
      RunInv(steps[..|steps| - 1]);
      hide Inv;
      hide Next;
      StepInv(Run(steps[..|steps| - 1]), steps[|steps| - 1]);
    } else {
      assert forall key ::
        Calls(START.answers, key) == 0 && Count(START.begun, key) == 0 && Settled(START.settled, key) == 0;
    }
  }

  // ---------------------------------------------------------------------
  // What callers are promised

  /** At most one pass runs per key, and every promise in flight has its loop. */
  lemma OnePassPerKey(steps: seq<Step>, key: Id, i: nat, j: nat)
    requires i < |Run(steps).loops| && j < |Run(steps).loops|
    requires Run(steps).loops[i].key == key && Run(steps).loops[j].key == key
    ensures i == j && TrackOf(Run(steps), key).promise == Some(Run(steps).loops[i].promise)
  {
    RunInv(steps);
    hide Run;
  }

  /**
   * A promise settles only by a pass that began at or after the call, and that no call has
   * superseded; so a superseded failure never rejects a call. Until then its loop runs on.
   */
  lemma AnsweredByLaterPass(steps: seq<Step>, k: nat)
    requires k < |Run(steps).answers|
    ensures var w, a := Run(steps), Run(steps).answers[k];
            && (Awaited(w.loops, a) <==> !SettledBy(w.settled, a))
            && forall j :: 0 <= j < |w.settled| && w.settled[j].promise == a.promise && w.settled[j].key == a.key ==>
                 && a.at <= w.settled[j].began
                 && (forall m :: 0 <= m < |w.answers| && w.answers[m].key == a.key && w.answers[m].at < w.settled[j].at
                       ==> w.answers[m].at <= w.settled[j].began)
  {
    RunInv(steps);
    var w, a := Run(steps), Run(steps).answers[k];
    hide Run;
    forall j | 0 <= j < |w.settled| && w.settled[j].promise == a.promise && w.settled[j].key == a.key
      ensures a.at <= w.settled[j].began
    {
      if SettledBy(w.settled, a) {
        var n :| 0 <= n < |w.settled| && w.settled[n].promise == a.promise && w.settled[n].key == a.key
          && a.at <= w.settled[n].began;
        assert n == j;
      }
    }
  }

  /** No key sees more passes than calls, and every promise takes at least one. */
  lemma PassesBounded(steps: seq<Step>, key: Id)
    ensures Count(Run(steps).begun, key) <= Calls(Run(steps).answers, key)
    ensures Settled(Run(steps).settled, key) + Running(Run(steps), key) <= Count(Run(steps).begun, key)
  {
    RunInv(steps);
    hide Run;
    hide HasLoop;
  }

  /** Without new calls a loop ends at most one pass later: two ends settle its promise. */
  lemma TwoEndsSettle(steps: seq<Step>, i: nat, first: bool, second: bool)
    requires i < |Run(steps).loops|
    ensures var w, l := Run(steps), Run(steps).loops[i];
            var w1 := PassEnds(w, i, first);
            if IsCurrent(w, l) then w1.settled == w.settled + [Settlement(l.key, l.promise, first, l.began, w.clock)]
            else
              && i < |w1.loops| && IsCurrent(w1, w1.loops[i]) && w1.loops[i].promise == l.promise
              && PassEnds(w1, i, second).settled ==
                 w.settled + [Settlement(l.key, l.promise, second, w.clock, w.clock + 1)]
  {
    RunInv(steps);
    hide Run;
    hide AnswersGood;
    hide Counted;
  }

  // ---------------------------------------------------------------------
  // The tracks in place

  /** The shared state behind one supersedable pass, updated by its calls and by the ends of its passes. */
  class Supersedable {
    var tracks: map<Id, Track>
    var loops: seq<Loop>
    var nextPromise: nat
    var clock: nat
    ghost var answers: seq<Answer>
    ghost var settled: seq<Settlement>
    ghost var begun: seq<Id>

    ghost function Contents(): World
      reads this
    {
      World(clock, tracks, loops, nextPromise, answers, settled, begun)
    }

    constructor ()
      ensures Contents() == START
    {
      tracks, loops, nextPromise, clock := map[], [], 0, 0;
      answers, settled, begun := [], [], [];
    }

    method Invoke(key: Id) returns (promise: nat)
      modifies this
      ensures Contents() == Call(old(Contents()), key)
      ensures Contents().answers == old(answers) + [Answer(key, old(clock), promise)]
    {
      var track := if key in tracks then tracks[key] else Track(0, None);
      track := track.(generation := track.generation + 1);
      tracks := tracks[key := track];
      if track.promise.Some? {
        promise := track.promise.value;
      } else {
        promise := nextPromise;
        nextPromise := nextPromise + 1;
        tracks := tracks[key := track.(promise := Some(promise))];
        loops := loops + [Loop(key, promise, track.generation, clock)];
        begun := begun + [key];
      }
      answers := answers + [Answer(key, clock, promise)];
      clock := clock + 1;
    }

    /** The loop after its pass: it settles its promise if no call came since the pass began, and reruns otherwise. */
    method PassEnded(i: nat, ok: bool)
      requires i < |loops|
      modifies this
      ensures Contents() == PassEnds(old(Contents()), i, ok)
    {
      var loop := loops[i];
      var owned := if loop.key in tracks then tracks[loop.key] else Track(0, None);
      if loop.ran != owned.generation {
        loops := loops[i := loop.(ran := owned.generation, began := clock)];
        begun := begun + [loop.key];
      } else {
        tracks := tracks[loop.key := owned.(promise := None)];
        loops := loops[..i] + loops[i + 1..];
        settled := settled + [Settlement(loop.key, loop.promise, ok, loop.began, clock)];
      }
      clock := clock + 1;
    }
  }
}
