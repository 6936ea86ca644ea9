/** What the reconnecting socket shows the outside, told by what was called and what it let out before. */
module SocketHistory {
  import opened Identity
  import opened ReconnectingSocket

  // ---------------------------------------------------------------------
  // The socket and the wish, by history

  /** Whether the last call was to connect. */
  predicate Wanted(events: seq<Event>) {
    events != [] && (events[|events| - 1].Connect?
      || (!events[|events| - 1].Disconnect? && Wanted(events[..|events| - 1])))
  }

  /** The socket opened last, unless it closed or was disconnected since. */
  function Alive(resolver: bool, events: seq<Event>): Option<nat> {
    if events == [] then None
    else
      var front, e, out := events[..|events| - 1], events[|events| - 1], OutputsFrom(resolver, START, events);
      if out != [] && out[0].Opened? then Some(out[0].ws)
      else if e.Disconnect? || (e.SocketCloses? && Waits(resolver, front) && Alive(resolver, front) == Some(e.ws))
        then None
      else Alive(resolver, front)
  }

  /** No step is suspended in a notification. */
  predicate Waits(resolver: bool, events: seq<Event>) {
    Run(resolver, events).pending == []
  }

  lemma StepAlive(resolver: bool, s: State, e: Event)
    ensures var (s', out) := Next(resolver, s, e);
            && (out != [] && out[0].Opened? ==> s'.ws == Some(out[0].ws))
            && (out == [] || !out[0].Opened? ==>
                  s'.ws == if e.Disconnect? || (e.SocketCloses? && s.pending == [] && s.ws == Some(e.ws)) then None
                    else s.ws)
            && s'.deliberate == (if e.Connect? then false else if e.Disconnect? then true else s.deliberate)
  {
    hide Delay;
    hide Trying;
  }

  lemma {:induction false} AliveIsHeld(resolver: bool, events: seq<Event>)
    ensures Run(resolver, events).ws == Alive(resolver, events) && Run(resolver, events).deliberate == !Wanted(events)
  {
    hide Next;
    if events != [] {
      var front, e := events[..|events| - 1], events[|events| - 1];
      assert events == front + [e];
      AliveIsHeld(resolver, front);
      RunLast(resolver, START, front, e);
      StepAlive(resolver, Run(resolver, front), e);
    }
  }

  /**
   * After any run, a message is delivered, once and unchanged, exactly when it comes from the socket opened last, that
   * has neither closed nor been disconnected, the last call was to connect, and no step is suspended.
   */
  lemma DeliveredExactly(resolver: bool, events: seq<Event>, w: nat, data: Id)
    ensures OutputsFrom(resolver, START, events + [SocketMessage(w, data)]) ==
            if Waits(resolver, events) && Alive(resolver, events) == Some(w) && Wanted(events) then [Delivered(w, data)]
              else []
    ensures Run(resolver, events + [SocketMessage(w, data)]) == Run(resolver, events)
  {
    AliveIsHeld(resolver, events);
    RunLast(resolver, START, events, SocketMessage(w, data));
    hide RunFrom;
    hide Alive;
    hide Wanted;
  }

  // ---------------------------------------------------------------------
  // Retries in a row

  /** How many retries were scheduled since the connection last stood or was given up. */
  function InARow(resolver: bool, events: seq<Event>): nat {
    if events == [] then 0
    else
      var front, out := events[..|events| - 1], OutputsFrom(resolver, START, events);
      if events[|events| - 1].Disconnect? || ReportsOpen(resolver, front, events[|events| - 1]) then 0
      else InARow(resolver, front) + if out != [] && out[0].Scheduled? then 1 else 0
  }

  /** An open being reported. */
  predicate ReportsOpen(resolver: bool, front: seq<Event>, e: Event) {
    var pending := Run(resolver, front).pending;
    e.Resume? && pending != [] && pending[|pending| - 1].OpenTail?
  }

  lemma StepInARow(resolver: bool, s: State, e: Event)
    ensures var (s', out) := Next(resolver, s, e);
            && (e.Disconnect? || (e.Resume? && s.pending != [] && s.pending[|s.pending| - 1].OpenTail?) ==>
               s'.attempts == 0)
            && (!e.Disconnect? && !(e.Resume? && s.pending != [] && s.pending[|s.pending| - 1].OpenTail?) ==>
                  s'.attempts == s.attempts + if out != [] && out[0].Scheduled? then 1 else 0)
            && (out != [] && out[0].Scheduled? ==> out == [Scheduled(Delay(s.attempts))])
  {
    hide Delay;
    hide Trying;
  }

  lemma {:induction false} InARowIsAttempts(resolver: bool, events: seq<Event>)
    ensures Run(resolver, events).attempts == InARow(resolver, events)
  {
    hide Next;
    if events != [] {
      var front, e := events[..|events| - 1], events[|events| - 1];
      assert events == front + [e];
      InARowIsAttempts(resolver, front);
      RunLast(resolver, START, front, e);
      StepInARow(resolver, Run(resolver, front), e);
    }
  }

  /** 500 ms, doubled for each retry in a row before, and never more than 8 s. */
  ghost predicate BacksOff(row: nat, delay: nat) {
    if row <= 3 then delay == [500, 1000, 2000, 4000][row] else delay == 8000
  }

  lemma DelayTable(row: nat)
    ensures BacksOff(row, Delay(row))
  {
    if row <= 3 {
      assert Pow2(0) == 1 && Pow2(1) == 2 && Pow2(2) == 4 && Pow2(3) == 8;
    } else {
      PowerLarge(row);
    }
  }

  lemma {:induction false} PowerLarge(n: nat)
    requires n >= 4
    ensures Pow2(n) >= 16
  {
    if n == 4 {
      assert Pow2(1) == 2 && Pow2(2) == 4 && Pow2(3) == 8 && Pow2(4) == 16;
    } else {
      PowerLarge(n - 1);
    }
  }

  /** Every retry scheduled is delayed by how many were scheduled in a row before it. */
  lemma RetryDelayExactly(resolver: bool, events: seq<Event>)
    requires events != [] && OutputsFrom(resolver, START, events) != []
    requires OutputsFrom(resolver, START, events)[0].Scheduled?
    ensures OutputsFrom(resolver, START, events) == [OutputsFrom(resolver, START, events)[0]]
    ensures BacksOff(InARow(resolver, events[..|events| - 1]), OutputsFrom(resolver, START, events)[0].delay)
  {
    hide Next;
    hide InARow;
    hide Delay;
    var front, e := events[..|events| - 1], events[|events| - 1];
    assert events == front + [e];
    InARowIsAttempts(resolver, front);
    RunLast(resolver, START, front, e);
    StepInARow(resolver, Run(resolver, front), e);
    DelayTable(InARow(resolver, front));
  }

  // ---------------------------------------------------------------------
  // Whole rounds

  /** Everything the events let out. */
  function Shown(resolver: bool, s: State, events: seq<Event>): seq<Output> {
    if events == [] then [] else Shown(resolver, s, events[..|events| - 1]) + OutputsFrom(resolver, s, events)
  }

  /** One event more, when the state before it is known. */
  lemma Goes(resolver: bool, s: State, front: seq<Event>, e: Event, s1: State, out1: seq<Output>)
    requires RunFrom(resolver, s, front) == s1 && Shown(resolver, s, front) == out1
    ensures RunFrom(resolver, s, front + [e]) == Next(resolver, s1, e).0
    ensures Shown(resolver, s, front + [e]) == out1 + Next(resolver, s1, e).1
  {
    assert (front + [e])[..|front|] == front;
    RunLast(resolver, s, front, e);
    hide Next;
  }

  /** What opening takes, from the call or the timer that began it. */
  function OpeningEvents(resolver: bool, resolution: nat): seq<Event> {
    if resolver then [Resume] + [Resolved(resolution, true)] + [Resume] else [Resume]
  }

  /** The state of an opening begun from `s` without a socket. */
  ghost predicate Opens(resolver: bool, s: State, begun: State) {
    && begun.status == (if s.attempts > 0 then Reconnecting else Connecting)
    && begun.pending == (if resolver then [ResolveTail(s.generation)] else [CreateTail])
    && begun.ws.None? && !begun.deliberate && begun.generation == s.generation && begun.issued == s.issued
    && begun.attempts == s.attempts && begun.handle == s.handle
  }

  lemma Creates(resolver: bool, s: State)
    requires s.pending == [CreateTail]
    ensures Next(resolver, s, Resume) ==
            (s.(pending := [], ws := Some(s.issued), issued := s.issued + 1), [Opened(s.issued)])
  {
    assert s.pending[..0] == [];
  }

  lemma Asks(resolver: bool, s: State, g: nat)
    requires s.pending == [ResolveTail(g)]
    ensures Next(resolver, s, Resume) ==
            (s.(pending := [], resolutions := s.resolutions[s.issued := g], issued := s.issued + 1), [])
  {
    assert s.pending[..0] == [];
  }

  lemma Resolves(resolver: bool, s: State, r: nat)
    requires s.pending == [] && s.ws.None? && !s.deliberate && r in s.resolutions && s.resolutions[r] == s.generation
    ensures Next(resolver, s, Resolved(r, true)) ==
            (s.(resolutions := s.resolutions - {r}, status := if s.attempts > 0 then Reconnecting else Connecting,
                pending := [CreateTail]), [])
  {
    assert s.pending + [CreateTail] == [CreateTail];
  }

  /** An opening that was begun runs on to a new socket, and once that reports open, to a connection that stands. */
  lemma OpeningStands(resolver: bool, s: State, begun: State)
    requires Opens(resolver, s, begun) && s.issued !in begun.resolutions
    ensures var w := if resolver then s.issued + 1 else s.issued;
            var events := OpeningEvents(resolver, s.issued) + [SocketOpens(w)] + [Resume];
            && Shown(resolver, begun, events) == [Opened(w)]
            && RunFrom(resolver, begun, events) ==
               begun.(ws := Some(w), status := Connected, attempts := 0, pending := [], issued := w + 1)
  {
    hide Next;
    hide RunFrom;
    hide Shown;
    hide Opens;
    OpensWith(resolver, s, begun);
    Starts(resolver, begun);
    assert [] + [Resume] == [Resume];
    Goes(resolver, begun, [], Resume, begun, []);
    if resolver {
      Asks(resolver, begun, begun.generation);
      var s1 := begun.(pending := [], resolutions := begun.resolutions[s.issued := begun.generation],
        issued := s.issued + 1);
      Goes(resolver, begun, [Resume], Resolved(s.issued, true), s1, []);
      Resolves(resolver, s1, s.issued);
      var s2 := begun.(issued := s.issued + 1, pending := [CreateTail],
                       status := if s1.attempts > 0 then Reconnecting else Connecting);
      assert s1.resolutions - {s.issued} == begun.resolutions;
      Goes(resolver, begun, [Resume] + [Resolved(s.issued, true)], Resume, s2, []);
      Creates(resolver, s2);
      assert [] + [Opened(s.issued + 1)] == [Opened(s.issued + 1)];
      SocketStands(resolver, begun, OpeningEvents(resolver, s.issued), s.issued + 1);
    } else {
      Creates(resolver, begun);
      assert [] + [Opened(s.issued)] == [Opened(s.issued)];
      SocketStands(resolver, begun, OpeningEvents(resolver, s.issued), s.issued);
    }
  }

  lemma OpensWith(resolver: bool, s: State, begun: State)
    requires Opens(resolver, s, begun)
    ensures begun.pending == (if resolver then [ResolveTail(begun.generation)] else [CreateTail])
    ensures begun.ws.None? && !begun.deliberate && begun.issued == s.issued
  {
  }

  lemma Starts(resolver: bool, s: State)
    ensures RunFrom(resolver, s, []) == s && Shown(resolver, s, []) == []
  {
  }

  /** A socket just created reports open. */
  lemma SocketStands(resolver: bool, begun: State, events: seq<Event>, w: nat)
    requires var made := RunFrom(resolver, begun, events);
             made.ws == Some(w) && made.pending == [] && !made.deliberate
    requires Shown(resolver, begun, events) == [Opened(w)]
    ensures var made := RunFrom(resolver, begun, events);
            && RunFrom(resolver, begun, events + [SocketOpens(w)] + [Resume]) ==
               made.(attempts := 0, status := Connected)
            && Shown(resolver, begun, events + [SocketOpens(w)] + [Resume]) == [Opened(w)]
  {
    hide RunFrom;
    hide Shown;
    var made := RunFrom(resolver, begun, events);
    Goes(resolver, begun, events, SocketOpens(w), made, [Opened(w)]);
    var reporting := made.(pending := [OpenTail]);
    assert Next(resolver, made, SocketOpens(w)) == (reporting, []);
    Goes(resolver, begun, events + [SocketOpens(w)], Resume, reporting, [Opened(w)]);
    assert reporting.pending[..0] == [];
  }

  /** A call to connect without a socket begins an opening; with one it changes nothing but the wish. */
  lemma ConnectBegins(resolver: bool, s: State)
    requires s.pending == []
    ensures s.ws.None? ==>
            Opens(resolver, s, Next(resolver, s, Connect).0)
              && Next(resolver, s, Connect).0.resolutions == s.resolutions
    ensures s.ws.Some? ==> Next(resolver, s, Connect).0 == s.(deliberate := false)
    ensures Next(resolver, s, Connect).1 == []
  {
  }

  /** From a state that waits, what a lost socket, or a failed resolution, goes through until its retry is armed. */
  ghost predicate Armed(s: State, armed: State) {
    && armed.pending == [] && armed.ws.None? && armed.deliberate == s.deliberate && armed.status == Reconnecting
    && armed.attempts == s.attempts + 1 && armed.handle == Some(s.issued) && armed.issued == s.issued + 1
    && armed.generation == s.generation && armed.timers == s.timers[s.issued := s.generation]
  }

  /** Losing the current socket arms a retry. */
  lemma LossArms(resolver: bool, s: State, w: nat)
    requires s.pending == [] && s.ws == Some(w) && !s.deliberate && s.handle.None?
    ensures var events := [SocketCloses(w)] + [Resume] + [Resume];
            var armed := RunFrom(resolver, s, events);
            Armed(s, armed) && armed.resolutions == s.resolutions
              && Shown(resolver, s, events) == [Scheduled(Delay(s.attempts))]
  {
    hide Delay;
    hide RunFrom;
    hide Shown;
    Starts(resolver, s);
    var s1 := s.(ws := None, pending := [CloseTail]);
    Goes(resolver, s, [], SocketCloses(w), s, []);
    assert [] + [SocketCloses(w)] == [SocketCloses(w)];
    Goes(resolver, s, [SocketCloses(w)], Resume, s1, []);
    assert s1.pending[..0] + [ScheduleTail] == [ScheduleTail];
    var s2 := s1.(status := Reconnecting, pending := [ScheduleTail]);
    assert Next(resolver, s1, Resume) == (s2, []);
    Goes(resolver, s, [SocketCloses(w)] + [Resume], Resume, s2, []);
    assert s2.pending[..0] == [];
  }

  /** A failed resolution of now arms a retry, too, and one of before changes nothing. */
  lemma FailedResolutionArms(resolver: bool, s: State, r: nat)
    requires s.pending == [] && s.ws.None? && !s.deliberate && s.handle.None? && r in s.resolutions
    ensures var events := [Resolved(r, false)] + [Resume];
            var end := RunFrom(resolver, s, events);
            if s.resolutions[r] == s.generation
            then Armed(s, end) && end.resolutions == s.resolutions - {r}
                 && Shown(resolver, s, events) == [Scheduled(Delay(s.attempts))]
            else end == s.(resolutions := s.resolutions - {r}) && Shown(resolver, s, events) == []
  {
    hide Delay;
    hide RunFrom;
    hide Shown;
    Starts(resolver, s);
    Goes(resolver, s, [], Resolved(r, false), s, []);
    assert [] + [Resolved(r, false)] == [Resolved(r, false)];
    var s1 := Next(resolver, s, Resolved(r, false)).0;
    Goes(resolver, s, [Resolved(r, false)], Resume, s1, []);
    assert s1.pending == [ScheduleTail] ==> s1.pending[..0] == [];
  }

  /** An armed retry that fires begins an opening. */
  lemma FiringBegins(resolver: bool, s: State, t: nat)
    requires s.pending == [] && s.ws.None? && !s.deliberate && s.handle == Some(t)
    requires t in s.timers && s.timers[t] == s.generation
    ensures var (begun, out) := Next(resolver, s, TimerFires(t));
            && Opens(resolver, s.(handle := None), begun) && out == []
            && begun.timers == s.timers - {t} && begun.resolutions == s.resolutions
  {
  }

  /**
   * The round of a reconnection, from any state that waits with a socket: the loss arms exactly one retry, delayed
   * for the retries in a row before it; when that fires exactly one socket is opened; and once it reports
   * open the connection stands again as if nothing had happened.
   */
  lemma Reconnects(resolver: bool, s: State, w: nat)
    requires Inv(s) && s.pending == [] && s.ws == Some(w) && !s.deliberate && s.handle.None?
    ensures var lost := RunFrom(resolver, s, [SocketCloses(w)] + [Resume] + [Resume]);
            && Armed(s, lost)
            && var begun := Next(resolver, lost, TimerFires(s.issued)).0;
            var w' := if resolver then s.issued + 2 else s.issued + 1;
            var events := OpeningEvents(resolver, s.issued + 1) + [SocketOpens(w')] + [Resume];
            var end := RunFrom(resolver, begun, events);
            && begun.status == Reconnecting && Shown(resolver, begun, events) == [Opened(w')]
            && end == s.(ws := Some(w'), attempts := 0, status := Connected, issued := w' + 1)
  {
    hide Delay;
    hide RunFrom;
    hide Shown;
    LossArms(resolver, s, w);
    var lost := RunFrom(resolver, s, [SocketCloses(w)] + [Resume] + [Resume]);
    FiringBegins(resolver, lost, s.issued);
    var begun := Next(resolver, lost, TimerFires(s.issued)).0;
    hide Next;
    NoneIssued(s);
    OpeningStands(resolver, lost.(handle := None), begun);
    assert begun.timers == s.timers;
  }

  lemma NoneIssued(s: State)
    requires Inv(s)
    ensures s.issued !in s.timers && s.issued !in s.resolutions && s.issued + 1 !in s.resolutions
  {
  }
}
