/**
 * The reconnecting socket: connects, retries forever with exponential backoff after an unexpected
 * close, and stays closed after a deliberate one, whatever fires late. Its status notifications and
 * its open and close callbacks run in the middle of a step, and may connect or disconnect there.
 */
module ReconnectingSocket {
  import opened Identity

  datatype Status = Disconnected | Connecting | Connected | Reconnecting

  /**
   * What is left of a step when it notifies: to create the socket, to ask for the address (with the
   * generation captured before), to arm a retry, to report the open, or to follow up on a close.
   */
  datatype Tail = CreateTail | ResolveTail(captured: nat) | ScheduleTail | OpenTail | CloseTail

  /**
   * The socket's fields, and what is outside it: timers set and not fired yet (a cancelled one may
   * still fire), url resolutions in flight, each with the generation it captured, and the steps
   * suspended in a notification, the innermost last.
   */
  datatype State = State(
    ws: Option<nat>,
    attempts: nat,
    handle: Option<nat>,
    generation: nat,
    deliberate: bool,
    status: Status,
    timers: map<nat, nat>,
    resolutions: map<nat, nat>,
    issued: nat,
    pending: seq<Tail>)

  const START: State := State(None, 0, None, 0, true, Disconnected, map[], map[], 0, [])

  /** What a step lets out. */
  datatype Output = Opened(ws: nat) | Delivered(ws: nat, data: Id) | Scheduled(delay: nat)

  function Pow2(n: nat): (p: nat)
    ensures p >= 1
  {
    if n == 0 then 1 else 2 * Pow2(n - 1)
  }

  function Delay(attempts: nat): nat {
    if 500 * Pow2(attempts) < 8000 then 500 * Pow2(attempts) else 8000
  }

  function Trying(s: State): Status {
    if s.attempts > 0 then Reconnecting else Connecting
  }

  /** Up to the notification that a socket is being created. */
  function Creating(s: State): State {
    if s.ws.Some? then s else s.(status := Trying(s), pending := s.pending + [CreateTail])
  }

  /** `resolver` says that the address must be resolved first. */
  function Opening(resolver: bool, s: State): State {
    if s.ws.Some? then s
    else if resolver then s.(status := Trying(s), pending := s.pending + [ResolveTail(s.generation)])
    else Creating(s)
  }

  /** Up to the notification that a retry follows; an armed retry is left to itself. */
  function Scheduling(s: State): State {
    if s.handle.Some? then s else s.(status := Reconnecting, pending := s.pending + [ScheduleTail])
  }

  /** The innermost suspended step goes on. */
  function Resuming(s: State): (State, seq<Output>)
    requires s.pending != []
  {
    var rest := s.(pending := s.pending[..|s.pending| - 1]);
    match s.pending[|s.pending| - 1]
    case CreateTail => (rest.(ws := Some(s.issued), issued := s.issued + 1), [Opened(s.issued)])
    case ResolveTail(g) => (rest.(resolutions := s.resolutions[s.issued := g], issued := s.issued + 1), [])
    case ScheduleTail =>
      (rest.(attempts := s.attempts + 1, handle := Some(s.issued), timers := s.timers[s.issued := s.generation],
             issued := s.issued + 1),
       [Scheduled(Delay(s.attempts))])
    case OpenTail => (rest.(attempts := 0, status := Connected), [])
    case CloseTail => (if s.deliberate then rest.(status := Disconnected) else Scheduling(rest), [])
  }

  /** `Connect` and `Disconnect` may come while steps are suspended; what comes from outside waits until none is. */
  datatype Event =
    | Connect
    | Disconnect
    | Resume
    | TimerFires(timer: nat)
    | Resolved(resolution: nat, ok: bool)
    | SocketOpens(ws: nat)
    | SocketMessage(ws: nat, data: Id)
    | SocketCloses(ws: nat)

  predicate Current(s: State, generation: nat) {
    generation == s.generation && !s.deliberate
  }

  function Next(resolver: bool, s: State, e: Event): (State, seq<Output>) {
    match e
    case Connect => (Opening(resolver, s.(deliberate := false)), [])
    case Disconnect =>
      (s.(deliberate := true, generation := s.generation + 1, handle := None, attempts := 0, ws := None,
        status := Disconnected), [])
    case Resume => if s.pending == [] then (s, []) else Resuming(s)
    case _ => if s.pending != [] then (s, []) else Outside(resolver, s, e)
  }

  function Outside(resolver: bool, s: State, e: Event): (State, seq<Output>) {
    match e
    case TimerFires(t) =>
      if t !in s.timers then (s, [])
      else
        var fired := s.(timers := s.timers - {t});
        if Current(s, s.timers[t]) then (Opening(resolver, fired.(handle := None)), []) else (fired, [])
    case Resolved(r, ok) =>
      if r !in s.resolutions then (s, [])
      else
        var done := s.(resolutions := s.resolutions - {r});
        if !Current(s, s.resolutions[r]) then (done, [])
        else if ok then (Creating(done), [])
        else (Scheduling(done), [])
    case SocketOpens(w) =>
      if s.ws != Some(w) || s.deliberate then (s, []) else (s.(pending := [OpenTail]), [])
    case SocketMessage(w, data) =>
      if s.ws != Some(w) || s.deliberate then (s, []) else (s, [Delivered(w, data)])
    case SocketCloses(w) =>
      if s.ws != Some(w) then (s, []) else (s.(ws := None, pending := [CloseTail]), [])
    case _ => (s, [])
  }

  function RunFrom(resolver: bool, s: State, events: seq<Event>): State {
    if events == [] then s else Next(resolver, RunFrom(resolver, s, events[..|events| - 1]), events[|events| - 1]).0
  }

  function Run(resolver: bool, events: seq<Event>): State {
    RunFrom(resolver, START, events)
  }

  /** What the last of the events lets out. */
  function OutputsFrom(resolver: bool, s: State, events: seq<Event>): seq<Output>
    requires events != []
  {
    Next(resolver, RunFrom(resolver, s, events[..|events| - 1]), events[|events| - 1]).1
  }

  lemma RunLast(resolver: bool, s: State, front: seq<Event>, e: Event)
    ensures RunFrom(resolver, s, front + [e]) == Next(resolver, RunFrom(resolver, s, front), e).0
    ensures OutputsFrom(resolver, s, front + [e]) == Next(resolver, RunFrom(resolver, s, front), e).1
  {
    assert (front + [e])[..|front|] == front;
    hide Next;
  }

  lemma {:induction false} RunConcat(resolver: bool, s: State, a: seq<Event>, b: seq<Event>)
    ensures RunFrom(resolver, s, a + b) == RunFrom(resolver, RunFrom(resolver, s, a), b)
    decreases |b|
  {
    hide Next;
    if b == [] {
      assert a + b == a;
    } else {
      var front, e := b[..|b| - 1], b[|b| - 1];
      assert a + b == (a + front) + [e] && b == front + [e];
      RunConcat(resolver, s, a, front);
      RunLast(resolver, s, a + front, e);
      RunLast(resolver, RunFrom(resolver, s, a), front, e);
    }
  }

  // ---------------------------------------------------------------------
  // The invariant

  ghost predicate Resolving(s: State) {
    exists r :: r in s.resolutions && s.resolutions[r] == s.generation
  }

  /** A step started from outside is suspended below all others; calls suspend only to open. */
  ghost predicate Nested(s: State) {
    && (forall i :: 0 <= i < |s.pending| && s.pending[i].ResolveTail? ==> s.pending[i].captured <= s.generation)
    && (forall i :: 0 < i < |s.pending| ==> s.pending[i].CreateTail? || s.pending[i].ResolveTail?)
    && (s.pending != [] && s.pending[0].ScheduleTail? ==> s.handle.None?)
  }

  /** Timers and resolutions carry the generation they were made in; one of now belongs to the armed retry. */
  ghost predicate Stamped(s: State) {
    && (s.handle.Some? ==> s.handle.value < s.issued)
    && (s.handle.Some? && s.handle.value in s.timers ==> s.timers[s.handle.value] == s.generation)
    && (forall t :: t in s.timers && s.timers[t] == s.generation ==> s.handle == Some(t))
    && (forall t :: t in s.timers ==> t < s.issued && s.timers[t] <= s.generation)
    && (forall r :: r in s.resolutions ==> r < s.issued && s.resolutions[r] <= s.generation)
    && (s.ws.Some? ==> s.ws.value < s.issued)
  }

  ghost predicate Inv(s: State) {
    Stamped(s) && Nested(s)
  }

  lemma ResumeStamped(s: State)
    requires Inv(s) && s.pending != []
    ensures Stamped(Resuming(s).0)
  {
    hide Delay;
    hide Trying;
  }

  lemma ResumeNested(s: State)
    requires Nested(s) && s.pending != []
    ensures Nested(Resuming(s).0)
  {
    hide Delay;
    hide Trying;
    var n := |s.pending| - 1;
    assert forall i :: 0 <= i < n ==> s.pending[..n][i] == s.pending[i];
  }

  lemma StepStamped(resolver: bool, s: State, e: Event)
    requires Inv(s)
    ensures Stamped(Next(resolver, s, e).0)
  {
    hide Resuming;
    hide Trying;
    if e.Resume? && s.pending != [] {
      ResumeStamped(s);
    }
  }

  lemma StepNested(resolver: bool, s: State, e: Event)
    requires Nested(s)
    ensures Nested(Next(resolver, s, e).0)
  {
    hide Resuming;
    hide Trying;
    if e.Resume? && s.pending != [] {
      ResumeNested(s);
    }
  }

  lemma StepInv(resolver: bool, s: State, e: Event)
    requires Inv(s)
    ensures Inv(Next(resolver, s, e).0)
  {
    hide Stamped;
    hide Nested;
    hide Next;
    StepStamped(resolver, s, e);
    StepNested(resolver, s, e);
  }

  lemma {:induction false} RunFromInv(resolver: bool, s: State, events: seq<Event>)
    requires Inv(s)
    ensures Inv(RunFrom(resolver, s, events))
  {
    if events != [] {
      RunFromInv(resolver, s, events[..|events| - 1]);
      StepInv(resolver, RunFrom(resolver, s, events[..|events| - 1]), events[|events| - 1]);
      hide Inv;
      hide Next;
    }
  }

  /** Whatever the order of calls, notifications, opens, closes, resolutions and stale timers. */
  lemma RunInv(resolver: bool, events: seq<Event>)
    ensures Inv(Run(resolver, events))
  {
    RunFromInv(resolver, START, events);
    hide RunFrom;
  }

  // ---------------------------------------------------------------------
  // Deliberately closed

  /** No socket, no retry, and the status says so. */
  ghost predicate Closed(s: State) {
    s.deliberate && s.ws.None? && s.handle.None? && s.status == Disconnected
  }

  /** What a suspended step still does after a deliberate close: these two do nothing that shows. */
  predicate Harmless(t: Tail) {
    t.ResolveTail? || t.CloseTail?
  }

  ghost predicate AllHarmless(s: State) {
    forall i :: 0 <= i < |s.pending| ==> Harmless(s.pending[i])
  }

  lemma StepClosed(resolver: bool, s: State, e: Event)
    requires Closed(s) && AllHarmless(s) && e != Connect
    ensures Closed(Next(resolver, s, e).0) && AllHarmless(Next(resolver, s, e).0) && Next(resolver, s, e).1 == []
  {
  }

  /**
   * A deliberately closed socket stays closed: until the next connect no socket is opened, no
   * data is delivered, no retry is scheduled, and the status stays disconnected.
   */
  lemma {:induction false} StaysClosed(resolver: bool, s: State, late: seq<Event>)
    requires Closed(s) && AllHarmless(s) && Connect !in late
    ensures Closed(RunFrom(resolver, s, late)) && AllHarmless(RunFrom(resolver, s, late))
    ensures late != [] ==> OutputsFrom(resolver, s, late) == []
  {
    if late != [] {
      var front, e := late[..|late| - 1], late[|late| - 1];
      assert e in late;
      StaysClosed(resolver, s, front);
      StepClosed(resolver, RunFrom(resolver, s, front), e);
      hide Closed;
      hide AllHarmless;
      hide Next;
    }
  }

  /** A suspended step that creates a socket, arms a retry or reports an open shows itself when resumed. */
  lemma {:induction false} HarmShows(resolver: bool, s: State) returns (late: seq<Event>)
    requires Closed(s) && !AllHarmless(s)
    ensures Connect !in late && !Closed(RunFrom(resolver, s, late))
    decreases |s.pending|
  {
    var s' := Next(resolver, s, Resume).0;
    RunLast(resolver, s, [], Resume);
    assert [] + [Resume] == [Resume] && RunFrom(resolver, s, []) == s;
    if Harmless(s.pending[|s.pending| - 1]) {
      var rest := HarmShows(resolver, s');
      late := [Resume] + rest;
      RunConcat(resolver, s, [Resume], rest);
    } else {
      late := [Resume];
    }
    hide RunFrom;
  }

  /**
   * After a disconnect the socket stays closed, until the next connect, exactly when the disconnect
   * was not made inside a notification of a socket being created or a retry being armed, nor inside
   * the open callback.
   */
  lemma StaysClosedExactly(resolver: bool, s: State)
    ensures var closed := Next(resolver, s, Disconnect).0;
            (forall late :: Connect !in late ==> Closed(RunFrom(resolver, closed, late))) <==> AllHarmless(s)
  {
    var closed := Next(resolver, s, Disconnect).0;
    assert Closed(closed) && (AllHarmless(closed) <==> AllHarmless(s));
    if AllHarmless(s) {
      forall late | Connect !in late
        ensures Closed(RunFrom(resolver, closed, late))
      {
        StaysClosed(resolver, closed, late);
      }
    } else {
      var late := HarmShows(resolver, closed);
      hide *;
      assert Connect !in late;
    }
  }

  /** Disconnecting when told that the first connection is being made: the socket is opened all the same. */
  lemma OpensAfterClose()
    ensures OutputsFrom(false, START, [Connect, Disconnect, Resume]) == [Opened(0)]
    ensures Run(false, [Connect, Disconnect, Resume]).deliberate
            && Run(false, [Connect, Disconnect, Resume]).ws == Some(0)
  {
    RunLast(false, START, [], Connect);
    RunLast(false, START, [Connect], Disconnect);
    RunLast(false, START, [Connect, Disconnect], Resume);
    assert [] + [Connect] == [Connect] && [Connect] + [Disconnect] == [Connect, Disconnect];
    assert [Connect, Disconnect] + [Resume] == [Connect, Disconnect, Resume];
  }

  /** A socket that was superseded or closed stays so, and delivers nothing any more. */
  lemma {:induction false} SupersededStays(resolver: bool, s: State, late: seq<Event>, w: nat)
    requires w < s.issued && s.ws != Some(w)
    ensures w < RunFrom(resolver, s, late).issued && RunFrom(resolver, s, late).ws != Some(w)
    ensures late != [] ==> forall data :: Delivered(w, data) !in OutputsFrom(resolver, s, late)
  {
    if late != [] {
      SupersededStays(resolver, s, late[..|late| - 1], w);
      SupersededStep(resolver, RunFrom(resolver, s, late[..|late| - 1]), late[|late| - 1], w);
      hide Next;
    }
  }

  lemma SupersededStep(resolver: bool, s: State, e: Event, w: nat)
    requires w < s.issued && s.ws != Some(w)
    ensures var (s', out) := Next(resolver, s, e);
            w < s'.issued && s'.ws != Some(w) && forall data :: Delivered(w, data) !in out
  {
  }

  // ---------------------------------------------------------------------
  // Progress

  ghost predicate Live(s: State) {
    s.handle.Some? && s.handle.value in s.timers
  }

  /** The retry noted as armed has fired already, so that nothing will clear the note but a disconnect. */
  ghost predicate Dead(s: State) {
    s.handle.Some? && s.handle.value !in s.timers
  }

  /** A suspended step that will open, ask for the address, or see to a retry. */
  ghost predicate Pends(s: State) {
    exists i :: 0 <= i < |s.pending| && !s.pending[i].OpenTail?
                && (s.pending[i].ResolveTail? ==> s.pending[i].captured == s.generation)
  }

  /**
   * While it should be connected there is a socket, an armed retry, an address being resolved, or a
   * step on its way to one.
   */
  ghost predicate UnderWay(s: State) {
    !s.deliberate ==> s.ws.Some? || Live(s) || Resolving(s) || Pends(s)
  }

  /** The step would see to a retry: a close is followed up, or an address could not be resolved. */
  ghost predicate Retries(s: State, e: Event) {
    || (e == Resume && s.pending == [CloseTail])
    || (s.pending == [] && e.Resolved? && !e.ok && e.resolution in s.resolutions
       && s.resolutions[e.resolution] == s.generation
        && forall r :: r in s.resolutions && s.resolutions[r] == s.generation ==> r == e.resolution)
  }

  lemma PendsLast(s: State, t: Tail)
    requires s.pending != [] && s.pending[|s.pending| - 1] == t && !t.OpenTail?
             && (t.ResolveTail? ==> t.captured == s.generation)
    ensures Pends(s)
  {
  }

  lemma OpeningUnderWay(resolver: bool, s: State)
    ensures UnderWay(Opening(resolver, s))
  {
    var s' := Opening(resolver, s);
    if s.ws.None? {
      PendsLast(s', s'.pending[|s'.pending| - 1]);
    }
  }

  lemma StuckResume(s: State)
    requires Inv(s) && UnderWay(s) && s.pending != []
    ensures !UnderWay(Resuming(s).0) <==>
              s.pending == [CloseTail] && !s.deliberate && s.ws.None? && Dead(s) && !Resolving(s)
  {
    var s' := Resuming(s).0;
    var top := s.pending[|s.pending| - 1];
    assert forall i :: 0 <= i < |s.pending| - 1 ==> s'.pending[i] == s.pending[i];
    if top.ResolveTail? && top.captured == s.generation {
      assert s'.resolutions[s.issued] == s'.generation;
    }
    if Resolving(s) && !top.CloseTail? {
      var r :| r in s.resolutions && s.resolutions[r] == s.generation;
      assert r in s'.resolutions && s'.resolutions[r] == s'.generation;
    }
    if top.CloseTail? && !s.deliberate && s.handle.None? {
      PendsLast(s', ScheduleTail);
    }
    if Pends(s) {
      var i :| 0 <= i < |s.pending| && !s.pending[i].OpenTail?
        && (s.pending[i].ResolveTail? ==> s.pending[i].captured == s.generation);
      if i < |s.pending| - 1 {
        assert s'.pending[i] == s.pending[i];
      }
    }
  }

  lemma StuckOutside(resolver: bool, s: State, e: Event)
    requires Inv(s) && UnderWay(s) && s.pending == [] && (e.TimerFires? || e.Resolved?)
    ensures !UnderWay(Next(resolver, s, e).0) <==> Retries(s, e) && !s.deliberate && s.ws.None? && Dead(s)
  {
    var s' := Next(resolver, s, e).0;
    match e
    case TimerFires(t) =>
      if t in s.timers && Current(s, s.timers[t]) {
        OpeningUnderWay(resolver, s.(timers := s.timers - {t}, handle := None));
      } else if Resolving(s) {
        var r :| r in s.resolutions && s.resolutions[r] == s.generation;
        assert r in s'.resolutions && s'.resolutions[r] == s'.generation;
      }
    case Resolved(r, ok) =>
      if x :| x in s.resolutions && s.resolutions[x] == s.generation && x != r {
        assert x in s'.resolutions && s'.resolutions[x] == s'.generation;
      }
      if r in s.resolutions && Current(s, s.resolutions[r]) && (ok ==> s.ws.None?) && (!ok ==> s.handle.None?) {
        PendsLast(s', s'.pending[|s'.pending| - 1]);
      }
  }

  /**
   * A step leaves nothing under way exactly when it sees to a retry and finds a retry noted as
   * armed that has fired already, with no socket and no other address being resolved.
   */
  lemma StuckExactly(resolver: bool, s: State, e: Event)
    requires Inv(s) && UnderWay(s)
    ensures !UnderWay(Next(resolver, s, e).0) <==>
              Retries(s, e) && !s.deliberate && s.ws.None? && Dead(s) && (e == Resume ==> !Resolving(s))
  {
    var s' := Next(resolver, s, e).0;
    match e
    case Connect => OpeningUnderWay(resolver, s.(deliberate := false));
    case Disconnect =>
    case Resume =>
      if s.pending != [] {
        StuckResume(s);
        hide Resuming;
        hide Inv;
      }
    case TimerFires(t) => if s.pending == [] { StuckOutside(resolver, s, e); }
    case Resolved(r, ok) => if s.pending == [] { StuckOutside(resolver, s, e); }
    case SocketCloses(w) =>
      if s.pending == [] && s.ws == Some(w) {
        PendsLast(s', CloseTail);
      }
    case _ =>
  }

  /** A retry noted as armed dies exactly by firing while the socket is deliberately closed. */
  lemma DiesExactly(resolver: bool, s: State, e: Event)
    requires Inv(s) && !Dead(s)
    ensures Dead(Next(resolver, s, e).0) <==>
            s.pending == [] && e.TimerFires? && s.handle == Some(e.timer) && s.deliberate
  {
  }

  /** And it is armed at a deliberately closed socket exactly by a disconnect inside the notification before it is. */
  lemma ArmedClosedExactly(resolver: bool, s: State, e: Event)
    requires Inv(s) && (s.deliberate ==> s.handle.None?)
    ensures var s' := Next(resolver, s, e).0;
            s'.deliberate && s'.handle.Some? <==> s.deliberate && e == Resume && s.pending == [ScheduleTail]
  {
  }

  /** No retry is armed, or about to be, while deliberately closed, and none is dead. */
  ghost predicate Calm(s: State) {
    && (s.deliberate ==> s.handle.None? && ScheduleTail !in s.pending)
    && !Dead(s)
  }

  lemma StepCalm(resolver: bool, s: State, e: Event)
    requires Inv(s) && Calm(s) && (e == Disconnect ==> ScheduleTail !in s.pending)
    ensures Calm(Next(resolver, s, e).0)
  {
    DiesExactly(resolver, s, e);
    ArmedClosedExactly(resolver, s, e);
  }

  /** No disconnect is made inside the notification that a retry follows. */
  ghost predicate Considerate(resolver: bool, s: State, events: seq<Event>) {
    forall n ::
      0 <= n < |events| && events[n] == Disconnect ==> ScheduleTail !in RunFrom(resolver, s, events[..n]).pending
  }

  lemma {:induction false} KeepsGoing(resolver: bool, s: State, events: seq<Event>)
    requires Inv(s) && Calm(s) && UnderWay(s) && Considerate(resolver, s, events)
    ensures var s' := RunFrom(resolver, s, events); Inv(s') && Calm(s') && UnderWay(s')
  {
    if events != [] {
      var front, e := events[..|events| - 1], events[|events| - 1];
      assert forall n :: 0 <= n < |front| ==> front[..n] == events[..n] && front[n] == events[n];
      KeepsGoing(resolver, s, front);
      StepInv(resolver, RunFrom(resolver, s, front), e);
      StepCalm(resolver, RunFrom(resolver, s, front), e);
      StuckExactly(resolver, RunFrom(resolver, s, front), e);
      hide Inv;
      hide UnderWay;
      hide Next;
    }
  }

  /**
   * Progress: as long as no disconnect is made inside the notification that a retry follows, there
   * is, until the next deliberate close, a socket, a live retry, a live resolution, or a step on its
   * way to one.
   */
  lemma AlwaysUnderWay(resolver: bool, events: seq<Event>)
    requires Considerate(resolver, START, events)
    ensures UnderWay(Run(resolver, events))
    ensures var s := Run(resolver, events);
            !s.deliberate && s.pending == [] ==>
              s.ws.Some? || (s.handle.Some? && s.handle.value in s.timers && s.timers[s.handle.value] == s.generation)
                || Resolving(s)
  {
    KeepsGoing(resolver, START, events);
    hide RunFrom;
    hide Nested;
  }

  // ---------------------------------------------------------------------
  // A disconnect inside the notification that a retry follows

  /** Resuming everything suspended arms a retry at the closed socket. */
  lemma {:induction false} ArmsWhenResumed(resolver: bool, s: State) returns (late: seq<Event>)
    requires Inv(s) && s.deliberate && s.pending != [] && s.pending[0] == ScheduleTail
    requires forall i :: 0 <= i < |s.pending| && s.pending[i].ResolveTail? ==> s.pending[i].captured < s.generation
    requires !Resolving(s)
    ensures Disconnect !in late
    ensures var s' := RunFrom(resolver, s, late);
            Inv(s') && s'.deliberate && s'.pending == [] && Live(s') && !Resolving(s')
    decreases |s.pending|
  {
    var s' := Next(resolver, s, Resume).0;
    StepInv(resolver, s, Resume);
    RunLast(resolver, s, [], Resume);
    assert [] + [Resume] == [Resume] && RunFrom(resolver, s, []) == s;
    late := [Resume];
    assert !Resolving(s');
    if |s.pending| > 1 {
      var rest := ArmsWhenResumed(resolver, s');
      late := [Resume] + rest;
      RunConcat(resolver, s, [Resume], rest);
      hide *;
    }
  }

  /** One more step of a run that has no disconnect. */
  lemma Onward(resolver: bool, s: State, late: seq<Event>, e: Event) returns (late': seq<Event>)
    requires Disconnect !in late && e != Disconnect
    ensures Disconnect !in late' && RunFrom(resolver, s, late') == Next(resolver, RunFrom(resolver, s, late), e).0
  {
    RunLast(resolver, s, late, e);
    late' := late + [e];
  }

  /** The retry fires while closed, and a socket left over closes: what remains is the note of a dead retry. */
  lemma Dies(resolver: bool, s: State, late0: seq<Event>) returns (late: seq<Event>)
    requires Disconnect !in late0
    requires var q := RunFrom(resolver, s, late0); Inv(q) && q.deliberate && q.pending == [] && Live(q) && !Resolving(q)
    ensures Disconnect !in late
    ensures var q := RunFrom(resolver, s, late);
            q.deliberate && q.pending == [] && Dead(q) && !Resolving(q) && q.ws.None?
  {
    var q := RunFrom(resolver, s, late0);
    late := Onward(resolver, s, late0, TimerFires(q.handle.value));
    if q.ws.Some? {
      late := Onward(resolver, s, late, SocketCloses(q.ws.value));
      late := Onward(resolver, s, late, Resume);
    }
    hide RunFrom;
  }

  /** From there connecting once and losing that connection, or not finding its address, leaves nothing under way. */
  lemma Sticks(resolver: bool, s: State, late0: seq<Event>) returns (late: seq<Event>)
    requires Disconnect !in late0
    requires var q := RunFrom(resolver, s, late0);
             q.deliberate && q.pending == [] && Dead(q) && !Resolving(q) && q.ws.None?
    ensures Disconnect !in late && !UnderWay(RunFrom(resolver, s, late))
  {
    var q := RunFrom(resolver, s, late0);
    late := Onward(resolver, s, late0, Connect);
    late := Onward(resolver, s, late, Resume);
    if resolver {
      late := Onward(resolver, s, late, Resolved(q.issued, false));
      assert RunFrom(resolver, s, late).resolutions == q.resolutions[q.issued := q.generation] - {q.issued};
    } else {
      late := Onward(resolver, s, late, SocketCloses(q.issued));
      late := Onward(resolver, s, late, Resume);
    }
    hide RunFrom;
  }

  lemma GetsStuck(resolver: bool, s: State) returns (late: seq<Event>)
    requires Inv(s) && ScheduleTail in s.pending
    ensures Disconnect !in late && !UnderWay(RunFrom(resolver, Next(resolver, s, Disconnect).0, late))
  {
    var closed := Next(resolver, s, Disconnect).0;
    StepInv(resolver, s, Disconnect);
    assert !Resolving(closed);
    late := ArmsWhenResumed(resolver, closed);
    hide *;
    late := Dies(resolver, closed, late);
    late := Sticks(resolver, closed, late);
  }

  /**
   * From any calm state, a disconnect leaves a socket that can always be connected again, however it
   * is used without another disconnect, exactly when it is not made inside the notification that a
   * retry follows.
   */
  lemma ProgressExactly(resolver: bool, s: State)
    requires Inv(s) && Calm(s)
    ensures var closed := Next(resolver, s, Disconnect).0;
            (forall late :: Disconnect !in late ==> UnderWay(RunFrom(resolver, closed, late))) <==>
              ScheduleTail !in s.pending
  {
    var closed := Next(resolver, s, Disconnect).0;
    if ScheduleTail in s.pending {
      var late := GetsStuck(resolver, s);
      hide *;
      assert Disconnect !in late;
    } else {
      StepInv(resolver, s, Disconnect);
      StepCalm(resolver, s, Disconnect);
      forall late | Disconnect !in late
        ensures UnderWay(RunFrom(resolver, closed, late))
      {
        KeepsGoing(resolver, closed, late);
      }
    }
  }

  // ---------------------------------------------------------------------
  // Delays

  /** Each retry comes after 500 to 8000 ms, and twice the last delay up to that cap. */
  lemma DelayBounds(attempts: nat)
    ensures 500 <= Delay(attempts) <= 8000
    ensures Delay(0) == 500
    ensures Delay(attempts + 1) == if 2 * Delay(attempts) < 8000 then 2 * Delay(attempts) else 8000
  {
  }

  /** Every retry scheduled comes after 500 to 8000 ms, and counts toward the delay of the next. */
  lemma ScheduledDelays(resolver: bool, s: State, e: Event, delay: nat)
    requires Scheduled(delay) in Next(resolver, s, e).1
    ensures 500 <= delay <= 8000 && delay == Delay(s.attempts)
    ensures Delay(Next(resolver, s, e).0.attempts) == if 2 * delay < 8000 then 2 * delay else 8000
  {
    DelayBounds(s.attempts);
    hide Delay;
    hide Pow2;
  }

  // ---------------------------------------------------------------------
  // The status

  /** Connected means that there is a socket, except while its close is being followed up. */
  ghost predicate Honest(s: State) {
    s.status == Connected && s.ws.None? ==> s.pending != [] && s.pending[0] == CloseTail
  }

  /** A socket created and opened, from a state with nothing suspended. */
  lemma ConnectsOnce(s: State)
    requires s.pending == [] && s.ws.None?
    ensures var s1 := Next(false, s, Connect).0;
            var s2 := Next(false, s1, Resume).0;
            var s3 := Next(false, s2, SocketOpens(s.issued)).0;
            Next(false, s3, Resume).0 == s.(deliberate := false, ws := Some(s.issued), issued := s.issued + 1,
              attempts := 0, status := Connected)
  {
    hide Delay;
    assert [CreateTail][..0] == [] && [OpenTail][..0] == [];
  }

  /** Losing it when no retry is armed arms one; otherwise nothing is done. */
  lemma LosesOnce(s: State)
    requires s.pending == [] && s.ws.Some? && !s.deliberate
    ensures var s1 := Next(false, s, SocketCloses(s.ws.value)).0;
            var s2 := Next(false, s1, Resume).0;
            if s.handle.Some? then s2 == s.(ws := None)
            else
              var s3 := Next(false, s2, Resume).0;
              && s3.handle == Some(s.issued) && !s3.deliberate && s3.pending == [] && s3.ws.None?
                 && s3.issued == s.issued + 1
  {
    hide Delay;
    hide Trying;
    var s1 := Next(false, s, SocketCloses(s.ws.value)).0;
    assert s1 == s.(ws := None, pending := [CloseTail]);
    assert s1.pending[..0] == [];
    var s2 := Next(false, s1, Resume).0;
    assert s2 == Scheduling(s.(ws := None));
    if s.handle.None? {
      assert s2.pending == [ScheduleTail] && s2.pending[..0] == [];
    }
  }

  /**
   * The status can lie: connecting again while a retry is armed, and losing that socket too,
   * leaves the status connected with no socket until the old retry fires.
   */
  lemma StatusCanLie()
    ensures exists events :: Disconnect !in events && !Honest(Run(false, events)) && Run(false, events).pending == []
  {
    var es, s := Connects([], START);
    var w := s.ws.value;
    LosesOnce(s);
    hide Next;
    es := Grows(es, SocketCloses(w));
    es := Grows(es, Resume);
    es := Grows(es, Resume);
    var armed := Run(false, es);
    es, s := Connects(es, armed);
    LosesOnce(s);
    w := s.ws.value;
    es := Grows(es, SocketCloses(w));
    es := Grows(es, Resume);
    assert !Honest(Run(false, es));
  }

  lemma Connects(es: seq<Event>, s: State) returns (es': seq<Event>, s': State)
    requires Disconnect !in es && Run(false, es) == s && s.pending == [] && s.ws.None?
    ensures Disconnect !in es' && Run(false, es') == s'
    ensures s' == s.(deliberate := false, ws := Some(s.issued), issued := s.issued + 1, attempts := 0,
            status := Connected)
  {
    ConnectsOnce(s);
    hide Next;
    es' := Grows(es, Connect);
    es' := Grows(es', Resume);
    es' := Grows(es', SocketOpens(s.issued));
    es' := Grows(es', Resume);
    s' := Run(false, es');
  }

  lemma Grows(es: seq<Event>, e: Event) returns (es': seq<Event>)
    requires Disconnect !in es && e != Disconnect
    ensures Disconnect !in es' && Run(false, es') == Next(false, Run(false, es), e).0
  {
    RunLast(false, START, es, e);
    es' := es + [e];
  }

  /**
   * A step makes an honest status lie exactly when a close is followed up under a retry still armed
   * while connected, or an open is reported after a disconnect inside the open callback.
   */
  lemma LiesExactly(resolver: bool, s: State, e: Event)
    requires Inv(s) && Honest(s)
    ensures !Honest(Next(resolver, s, e).0) <==>
              && e == Resume && s.ws.None?
              && (s.pending == [OpenTail]
                  || (s.pending == [CloseTail] && !s.deliberate && s.status == Connected && s.handle.Some?))
  {
  }

  /**
   * Connecting only when deliberately closed and not inside a notification, and disconnecting only
   * where a suspended step does no harm.
   */
  ghost predicate Alternates(resolver: bool, events: seq<Event>) {
    forall n :: 0 <= n < |events| ==> Orderly(Run(resolver, events[..n]), events[n])
  }

  ghost predicate Orderly(s: State, e: Event) {
    && (e == Connect ==> s.deliberate && s.pending == [])
    && (e == Disconnect ==> AllHarmless(s))
  }

  /** At most one thing is under way: a socket, an armed retry, a live resolution, or a suspended step. */
  ghost predicate Single(s: State) {
    && |s.pending| <= 1
    && (s.deliberate ==> Closed(s) && !Resolving(s) && AllHarmless(s))
    && (s.ws.Some? ==> s.handle.None? && !Resolving(s) && (s.pending == [] || s.pending == [OpenTail]))
    && (s.handle.Some? ==> !Resolving(s) && s.pending == [])
    && (s.pending != [] ==> !Resolving(s) && (s.pending[0].OpenTail? ==> s.ws.Some?))
    && (forall r, q :: r in s.resolutions && q in s.resolutions ==>
          s.resolutions[r] == s.generation && s.resolutions[q] == s.generation ==> r == q)
  }

  lemma SingleResume(s: State)
    requires Inv(s) && Single(s) && Honest(s) && s.pending != []
    requires s.deliberate ==> forall i ::
             0 <= i < |s.pending| && s.pending[i].ResolveTail? ==> s.pending[i].captured < s.generation
    ensures Single(Resuming(s).0) && Honest(Resuming(s).0)
  {
    hide Delay;
    hide Trying;
    var s' := Resuming(s).0;
    assert s.pending == [s.pending[0]];
    assert forall r ::
      r in s'.resolutions && r != s.issued ==> r in s.resolutions && s'.resolutions[r] == s.resolutions[r];
  }

  /** A resolution asked for after a disconnect is stale. */
  ghost predicate StaleAsked(s: State) {
    s.deliberate ==> forall i ::
      0 <= i < |s.pending| && s.pending[i].ResolveTail? ==> s.pending[i].captured < s.generation
  }

  lemma ResumeStale(s: State)
    requires Inv(s) && Single(s) && s.pending != []
    ensures StaleAsked(Resuming(s).0)
  {
    hide Delay;
    hide Trying;
  }

  lemma StepSingle(resolver: bool, s: State, e: Event)
    requires Inv(s) && Single(s) && Honest(s) && StaleAsked(s) && Orderly(s, e)
    ensures var s' := Next(resolver, s, e).0; Single(s') && Honest(s') && StaleAsked(s')
  {
    hide Resuming;
    var s' := Next(resolver, s, e).0;
    if e == Resume && s.pending != [] {
      SingleResume(s);
      ResumeStale(s);
    }
    if e.Resolved? && e.resolution in s.resolutions && s.pending == [] {
      assert forall r :: r in s'.resolutions ==> r in s.resolutions && s'.resolutions[r] == s.resolutions[r];
      if Current(s, s.resolutions[e.resolution]) {
        assert Resolving(s);
      }
    }
    if e.TimerFires? && e.timer in s.timers && Current(s, s.timers[e.timer]) {
      assert s.handle == Some(e.timer);
    }
  }

  /** Then no retry is ever armed beside a socket, and the status never lies. */
  lemma {:induction false} AlternatingIsHonest(resolver: bool, events: seq<Event>)
    requires Alternates(resolver, events)
    ensures var s := Run(resolver, events); Single(s) && Honest(s) && StaleAsked(s)
  {
    if events != [] {
      var front, e := events[..|events| - 1], events[|events| - 1];
      assert forall n :: 0 <= n < |front| ==> front[..n] == events[..n] && front[n] == events[n];
      AlternatingIsHonest(resolver, front);
      RunInv(resolver, front);
      StepSingle(resolver, Run(resolver, front), e);
      hide Inv;
      hide Single;
      hide Honest;
      hide StaleAsked;
      hide Next;
    }
  }

  // ---------------------------------------------------------------------
  // The class

  /**
   * The socket's methods and callbacks, updating its fields in place. Each runs up to the point
   * where it notifies; `Resume` is what follows the notification. Each returns what it lets out.
   */
  class Socket {
    const resolver: bool
    var ws: Option<nat>
    var reconnectAttempts: nat
    var reconnectHandle: Option<nat>
    var reconnectGeneration: nat
    var deliberateClose: bool
    var status: Status
    var timers: map<nat, nat>
    var resolutions: map<nat, nat>
    var issued: nat
    var pending: seq<Tail>

    function Contents(): State
      reads this
    {
      State(ws, reconnectAttempts, reconnectHandle, reconnectGeneration, deliberateClose, status, timers, resolutions,
        issued,
            pending)
    }

    constructor (resolver: bool)
      ensures this.resolver == resolver && Contents() == START && Inv(Contents())
    {
      this.resolver := resolver;
      ws, reconnectAttempts, reconnectHandle, reconnectGeneration := None, 0, None, 0;
      deliberateClose, status, timers, resolutions, issued, pending := true, Disconnected, map[], map[], 0, [];
      new;
      RunInv(resolver, []);
    }

    method OpenSocket()
      modifies this
      ensures Contents() == Opening(resolver, old(Contents()))
    {
      if ws.Some? {
        return;
      }
      if resolver {
        var generation := reconnectGeneration;
        status := if reconnectAttempts > 0 then Reconnecting else Connecting;
        pending := pending + [ResolveTail(generation)];
        return;
      }
      CreateSocket();
    }

    method CreateSocket()
      modifies this
      ensures Contents() == Creating(old(Contents()))
    {
      if ws.Some? {
        return;
      }
      status := if reconnectAttempts > 0 then Reconnecting else Connecting;
      pending := pending + [CreateTail];
    }

    method ScheduleReconnect()
      modifies this
      ensures Contents() == Scheduling(old(Contents()))
    {
      if reconnectHandle.Some? {
        return;
      }
      status := Reconnecting;
      pending := pending + [ScheduleTail];
    }

    /** What follows the innermost notification. */
    method Resume() returns (out: seq<Output>)
      requires pending != []
      modifies this
      ensures (Contents(), out) == Next(resolver, old(Contents()), Event.Resume)
    {
      var tail := pending[|pending| - 1];
      pending := pending[..|pending| - 1];
      out := [];
      match tail {
        case CreateTail =>
          ws := Some(issued);
          issued := issued + 1;
          out := [Opened(ws.value)];
        case ResolveTail(generation) =>
          resolutions := resolutions[issued := generation];
          issued := issued + 1;
        case ScheduleTail =>
          out := [Scheduled(Delay(reconnectAttempts))];
          reconnectAttempts := reconnectAttempts + 1;
          timers := timers[issued := reconnectGeneration];
          reconnectHandle := Some(issued);
          issued := issued + 1;
        case OpenTail =>
          reconnectAttempts := 0;
          status := Connected;
        case CloseTail =>
          if deliberateClose {
            status := Disconnected;
          } else {
            ScheduleReconnect();
          }
      }
    }

    method Connect()
      modifies this
      ensures (Contents(), []) == Next(resolver, old(Contents()), Event.Connect)
    {
      deliberateClose := false;
      OpenSocket();
    }

    method Disconnect()
      modifies this
      ensures (Contents(), []) == Next(resolver, old(Contents()), Event.Disconnect)
    {
      deliberateClose := true;
      reconnectGeneration := reconnectGeneration + 1;
      reconnectHandle := None;
      reconnectAttempts := 0;
      ws := None;
      status := Disconnected;
    }

    /** A retry callback, possibly stale. */
    method TimerFired(timer: nat)
      requires timer in timers && pending == []
      modifies this
      ensures (Contents(), []) == Next(resolver, old(Contents()), TimerFires(timer))
    {
      var generation := timers[timer];
      timers := timers - {timer};
      if generation != reconnectGeneration || deliberateClose {
        return;
      }
      reconnectHandle := None;
      OpenSocket();
    }

    /** A resolution that came back, possibly too late; a failing one retries. */
    method UrlResolved(resolution: nat, ok: bool)
      requires resolution in resolutions && pending == []
      modifies this
      ensures (Contents(), []) == Next(resolver, old(Contents()), Resolved(resolution, ok))
    {
      var generation := resolutions[resolution];
      resolutions := resolutions - {resolution};
      if generation != reconnectGeneration || deliberateClose {
        return;
      }
      if ok {
        CreateSocket();
      } else {
        ScheduleReconnect();
      }
    }

    method OnOpen(w: nat)
      requires pending == []
      modifies this
      ensures (Contents(), []) == Next(resolver, old(Contents()), SocketOpens(w))
    {
      if ws != Some(w) || deliberateClose {
        return;
      }
      pending := [OpenTail];
    }

    method OnMessage(w: nat, data: Id) returns (out: seq<Output>)
      requires pending == []
      ensures (Contents(), out) == Next(resolver, Contents(), SocketMessage(w, data))
    {
      if ws != Some(w) || deliberateClose {
        return [];
      }
      return [Delivered(w, data)];
    }

    method OnClose(w: nat)
      requires pending == []
      modifies this
      ensures (Contents(), []) == Next(resolver, old(Contents()), SocketCloses(w))
    {
      if ws != Some(w) {
        return;
      }
      ws := None;
      pending := [CloseTail];
    }
  }
}
