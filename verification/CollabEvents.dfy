/**
 * The event path of a collaboration connection: what is buffered before anyone listens, in which
 * order listeners see everything, their own reactions included, and what a close still lets through.
 */
module CollabEvents {
  import opened Identity
  import opened Ordered

  const PRE_SUBSCRIBE_BUFFER_CAP: nat := 4096

  datatype Kind = ConnectedKind | OpKind | SessionClosedKind | PresenceKind | DisconnectedKind | OtherKind

  datatype Event = Event(kind: Kind, body: Id)

  predicate IsOp(e: Event) {
    e.kind.OpKind?
  }

  /** Presence is noise and a lost connection means nothing to one never connected. */
  predicate Buffered(e: Event) {
    !e.kind.PresenceKind? && !e.kind.DisconnectedKind?
  }

  // ---------------------------------------------------------------------
  // The buffer

  /** The position of the first op, or the length. */
  function FirstOp(es: seq<Event>): (i: nat)
    ensures i <= |es| && (forall k :: 0 <= k < i ==> !IsOp(es[k])) && (i < |es| ==> IsOp(es[i]))
  {
    if es == [] || IsOp(es[0]) then 0 else 1 + FirstOp(es[1..])
  }

  function RemoveAt(es: seq<Event>, i: nat): seq<Event>
    requires i < |es|
  {
    es[..i] + es[i + 1..]
  }

  /**
   * One arrival with nobody listening: beyond the cap the oldest op goes, and the oldest event only
   * if there is no op.
   */
  function Arrive(buffer: seq<Event>, e: Event): seq<Event> {
    if !Buffered(e) then buffer
    else
      var longer := buffer + [e];
      if |longer| <= PRE_SUBSCRIBE_BUFFER_CAP then longer
      else RemoveAt(longer, if FirstOp(longer) < |longer| then FirstOp(longer) else 0)
  }

  function BufferAll(es: seq<Event>): seq<Event> {
    if es == [] then [] else Arrive(BufferAll(es[..|es| - 1]), es[|es| - 1])
  }

  /** The buffered kinds among the arrivals, without their first `ops` ops and first `others` other events. */
  function Kept(es: seq<Event>, ops: nat, others: nat): seq<Event> {
    if es == [] then []
    else if !Buffered(es[0]) then Kept(es[1..], ops, others)
    else if IsOp(es[0]) then (if ops > 0 then Kept(es[1..], ops - 1, others) else [es[0]] + Kept(es[1..], 0, others))
    else if others > 0 then Kept(es[1..], ops, others - 1)
    else [es[0]] + Kept(es[1..], ops, 0)
  }

  function Ops(es: seq<Event>): nat {
    if es == [] then 0 else (if IsOp(es[0]) then 1 else 0) + Ops(es[1..])
  }

  /** Buffered events that are not ops: descriptors, closed sessions and the like. */
  function Others(es: seq<Event>): nat {
    if es == [] then 0 else (if Buffered(es[0]) && !IsOp(es[0]) then 1 else 0) + Others(es[1..])
  }

  lemma {:induction false} CountAppend(es: seq<Event>, e: Event)
    ensures Ops(es + [e]) == Ops(es) + if IsOp(e) then 1 else 0
    ensures Others(es + [e]) == Others(es) + if Buffered(e) && !IsOp(e) then 1 else 0
  {
    if es != [] {
      assert (es + [e])[1..] == es[1..] + [e];
      CountAppend(es[1..], e);
    }
  }

  lemma {:induction false} KeptAppend(es: seq<Event>, e: Event, ops: nat, others: nat)
    requires ops <= Ops(es) && others <= Others(es)
    ensures Kept(es + [e], ops, others) == Kept(es, ops, others) + if Buffered(e) then [e] else []
  {
    if es != [] {
      assert (es + [e])[1..] == es[1..] + [e];
      if !Buffered(es[0]) {
        KeptAppend(es[1..], e, ops, others);
      } else if IsOp(es[0]) {
        KeptAppend(es[1..], e, if ops > 0 then ops - 1 else 0, others);
      } else {
        KeptAppend(es[1..], e, ops, if others > 0 then others - 1 else 0);
      }
    } else {
      assert [e][1..] == [];
    }
  }

  lemma {:induction false} KeptSize(es: seq<Event>, ops: nat, others: nat)
    requires ops <= Ops(es) && others <= Others(es)
    ensures |Kept(es, ops, others)| == Ops(es) - ops + Others(es) - others
    ensures FirstOp(Kept(es, ops, others)) < |Kept(es, ops, others)| <==> ops < Ops(es)
  {
    if es != [] {
      if !Buffered(es[0]) {
        KeptSize(es[1..], ops, others);
      } else if IsOp(es[0]) {
        KeptSize(es[1..], if ops > 0 then ops - 1 else 0, others);
      } else {
        KeptSize(es[1..], ops, if others > 0 then others - 1 else 0);
        FirstOpCons(es[0], Kept(es[1..], ops, if others > 0 then others - 1 else 0));
      }
    }
  }

  lemma FirstOpCons(e: Event, es: seq<Event>)
    ensures FirstOp([e] + es) == if IsOp(e) then 0 else 1 + FirstOp(es)
  {
    assert ([e] + es)[1..] == es;
  }

  /** What the first arrival contributes. */
  lemma KeptCons(es: seq<Event>, ops: nat, others: nat)
    requires es != []
    ensures Kept(es, ops, others) ==
              if !Buffered(es[0]) then Kept(es[1..], ops, others)
              else if IsOp(es[0])
                then (if ops > 0 then Kept(es[1..], ops - 1, others) else [es[0]] + Kept(es[1..], 0, others))
              else if others > 0 then Kept(es[1..], ops, others - 1)
              else [es[0]] + Kept(es[1..], ops, 0)
    ensures Ops(es) == Ops(es[1..]) + (if IsOp(es[0]) then 1 else 0)
    ensures Others(es) == Others(es[1..]) + (if Buffered(es[0]) && !IsOp(es[0]) then 1 else 0)
  {
  }

  /** Removing the first op kept is dropping one op more. */
  lemma {:induction false} KeptDropOp(es: seq<Event>, ops: nat, others: nat)
    requires ops < Ops(es) && others <= Others(es)
    ensures var kept := Kept(es, ops, others);
            FirstOp(kept) < |kept| && RemoveAt(kept, FirstOp(kept)) == Kept(es, ops + 1, others)
  {
    KeptSize(es, ops, others);
    KeptCons(es, ops, others);
    KeptCons(es, ops + 1, others);
    hide Kept;
    hide Ops;
    hide Others;
    if !Buffered(es[0]) {
      KeptDropOp(es[1..], ops, others);
    } else if IsOp(es[0]) {
      if ops > 0 {
        KeptDropOp(es[1..], ops - 1, others);
      } else {
        var rest := Kept(es[1..], 0, others);
        FirstOpCons(es[0], rest);
        hide FirstOp;
        assert RemoveAt([es[0]] + rest, 0) == rest;
      }
    } else if others > 0 {
      KeptDropOp(es[1..], ops, others - 1);
    } else {
      KeptDropOp(es[1..], ops, 0);
      RemoveBehind(es[0], Kept(es[1..], ops, 0));
    }
  }

  /** Behind an event that is no op the first op is one place further. */
  lemma RemoveBehind(e: Event, rest: seq<Event>)
    requires !IsOp(e) && FirstOp(rest) < |rest|
    ensures FirstOp([e] + rest) == 1 + FirstOp(rest)
            && RemoveAt([e] + rest, FirstOp([e] + rest)) == [e] + RemoveAt(rest, FirstOp(rest))
  {
    FirstOpCons(e, rest);
    RemoveCons(e, rest, FirstOp(rest));
    hide FirstOp;
    hide RemoveAt;
  }

  lemma RemoveCons(e: Event, rest: seq<Event>, i: nat)
    requires i < |rest|
    ensures RemoveAt([e] + rest, 1 + i) == [e] + RemoveAt(rest, i)
  {
  }

  /** With no op left, removing the first event is dropping one other event more. */
  lemma {:induction false} KeptDropOther(es: seq<Event>, others: nat)
    requires others < Others(es)
    ensures Kept(es, Ops(es), others) != [] && RemoveAt(Kept(es, Ops(es), others), 0) == Kept(es, Ops(es), others + 1)
  {
    if !Buffered(es[0]) {
      KeptDropOther(es[1..], others);
    } else if IsOp(es[0]) {
      KeptDropOther(es[1..], others);
    } else if others > 0 {
      KeptDropOther(es[1..], others - 1);
    } else {
      var rest := Kept(es[1..], Ops(es), 0);
      assert RemoveAt([es[0]] + rest, 0) == rest;
    }
  }

  /** How many ops, and how many other events, have been dropped after some arrivals. */
  function DroppedOthers(es: seq<Event>): nat {
    if Others(es) > PRE_SUBSCRIBE_BUFFER_CAP then Others(es) - PRE_SUBSCRIBE_BUFFER_CAP else 0
  }

  function DroppedOps(es: seq<Event>): nat {
    var excess := Ops(es) + Others(es) - PRE_SUBSCRIBE_BUFFER_CAP;
    if excess <= 0 then 0 else if excess < Ops(es) then excess else Ops(es)
  }

  /**
   * The buffer, exactly: an in-order subsequence of the arrivals of at most 4096 events. Beyond
   * the cap a prefix of the ops is lost, and another event only once every op is.
   */
  lemma {:induction false} BufferExact(es: seq<Event>)
    ensures BufferAll(es) == Kept(es, DroppedOps(es), DroppedOthers(es))
    ensures |BufferAll(es)| <= PRE_SUBSCRIBE_BUFFER_CAP
    ensures DroppedOps(es) <= Ops(es) && DroppedOthers(es) <= Others(es)
    ensures DroppedOthers(es) > 0 ==> DroppedOps(es) == Ops(es)
  {
    if es != [] {
      var front, e := es[..|es| - 1], es[|es| - 1];
      assert es == front + [e];
      BufferExact(front);
      CountAppend(front, e);
      BufferStep(front, e);
    }
  }

  lemma BufferStep(front: seq<Event>, e: Event)
    requires BufferAll(front) == Kept(front, DroppedOps(front), DroppedOthers(front))
    requires |BufferAll(front)| <= PRE_SUBSCRIBE_BUFFER_CAP
    ensures var es := front + [e];
            Arrive(BufferAll(front), e) == Kept(es, DroppedOps(es), DroppedOthers(es))
              && |Arrive(BufferAll(front), e)| <= PRE_SUBSCRIBE_BUFFER_CAP
  {
    var es, ops, others := front + [e], DroppedOps(front), DroppedOthers(front);
    CountAppend(front, e);
    KeptAppend(front, e, ops, others);
    KeptSize(front, ops, others);
    if Buffered(e) && Ops(front) + Others(front) >= PRE_SUBSCRIBE_BUFFER_CAP {
      BufferFull(front, e);
    } else {
      hide Kept;
      hide Ops;
      hide Others;
      hide BufferAll;
      hide FirstOp;
      assert DroppedOps(es) == 0 == ops || !Buffered(e);
    }
  }

  lemma ArriveFull(buffer: seq<Event>, e: Event)
    requires Buffered(e) && |buffer| == PRE_SUBSCRIBE_BUFFER_CAP
    ensures var longer := buffer + [e];
            && Arrive(buffer, e) == RemoveAt(longer, if FirstOp(longer) < |longer| then FirstOp(longer) else 0)
            && |Arrive(buffer, e)| == PRE_SUBSCRIBE_BUFFER_CAP
  {
    hide FirstOp;
  }

  lemma BufferFull(front: seq<Event>, e: Event)
    requires Buffered(e) && Ops(front) + Others(front) >= PRE_SUBSCRIBE_BUFFER_CAP
    requires BufferAll(front) == Kept(front, DroppedOps(front), DroppedOthers(front))
    ensures var es := front + [e];
            Arrive(BufferAll(front), e) == Kept(es, DroppedOps(es), DroppedOthers(es))
              && |Arrive(BufferAll(front), e)| <= PRE_SUBSCRIBE_BUFFER_CAP
  {
    hide Kept;
    hide Ops;
    hide Others;
    hide BufferAll;
    hide FirstOp;
    hide Arrive;
    hide RemoveAt;
    var es, ops, others := front + [e], DroppedOps(front), DroppedOthers(front);
    CountAppend(front, e);
    KeptAppend(front, e, ops, others);
    KeptSize(front, ops, others);
    KeptSize(es, ops, others);
    ArriveFull(BufferAll(front), e);
    if ops < Ops(es) {
      KeptDropOp(es, ops, others);
    } else {
      KeptDropOther(es, others);
    }
  }

  // ---------------------------------------------------------------------
  // Subscribing, emitting and handing out

  /**
   * What is in progress: handing one event to the listeners of a snapshot still to come, or the
   * first subscriber's flush of the buffer. What listeners provoke in their turns nests on top.
   */
  datatype Frame = HandOut(event: Event, rest: seq<nat>) | Flush

  datatype Handed = Handed(listener: nat, event: Event)

  /** `frames` lists what is in progress, the innermost last, and `heard` what was handed to whom. */
  datatype Conn = Conn(
    buffered: Option<seq<Event>>,
    draining: Option<seq<Event>>,
    closed: bool,
    listeners: seq<nat>,
    frames: seq<Frame>,
    heard: seq<Handed>)

  const START: Conn := Conn(Some([]), None, false, [], [], [])

  /**
   * `Arrived` is an event behind a caller's test that the connection is open; `Emitted` is the bare
   * emission, which the second of two emissions in a row reaches without another test. `Turn` is the
   * innermost thing in progress going on. Any step may come in a listener's turn.
   */
  datatype Step =
    | Arrived(arrival: Event)
    | Emitted(event: Event)
    | Subscribed(listener: nat)
    | Unsubscribed(gone: nat)
    | Turn
    | Closed

  function QueueOf(c: Conn): seq<Event> {
    if c.draining.Some? then c.draining.value else []
  }

  /** The first listener of the snapshot is handed the event at once, the others in their turns. */
  function HandTo(c: Conn, e: Event): Conn {
    if c.listeners == [] then c
    else c.(heard := c.heard + [Handed(c.listeners[0], e)], frames := c.frames + [HandOut(e, c.listeners[1..])])
  }

  function Emit(c: Conn, e: Event): Conn {
    if c.draining.Some? then c.(draining := Some(c.draining.value + [e]))
    else if c.listeners != [] then HandTo(c, e)
    else if c.buffered.Some? then c.(buffered := Some(Arrive(c.buffered.value, e)))
    else c
  }

  function Add(listeners: seq<nat>, l: nat): seq<nat> {
    if l in listeners then listeners else listeners + [l]
  }

  function Subscribe(c: Conn, l: nat): Conn {
    var added := c.(listeners := Add(c.listeners, l));
    if c.buffered.Some? then added.(buffered := None, draining := c.buffered, frames := c.frames + [Flush]) else added
  }

  function TakeTurn(c: Conn): Conn
    requires c.frames != []
  {
    var outer := c.frames[..|c.frames| - 1];
    match c.frames[|c.frames| - 1]
    case HandOut(e, rest) =>
      if rest == [] then c.(frames := outer)
      else c.(heard := c.heard + [Handed(rest[0], e)], frames := outer + [HandOut(e, rest[1..])])
    case Flush =>
      if c.closed || QueueOf(c) == [] then c.(frames := outer, draining := None)
      else HandTo(c.(draining := Some(QueueOf(c)[1..])), QueueOf(c)[0])
  }

  function Next(c: Conn, s: Step): Conn {
    match s
    case Arrived(e) => if c.closed then c else Emit(c, e)
    case Emitted(e) => Emit(c, e)
    case Subscribed(l) => Subscribe(c, l)
    case Unsubscribed(l) => c.(listeners := Without(c.listeners, l))
    case Turn => if c.frames == [] then c else TakeTurn(c)
    case Closed => if c.closed then c else c.(closed := true, buffered := None, draining := None, listeners := [])
  }

  function Run(c: Conn, steps: seq<Step>): Conn {
    if steps == [] then c else Next(Run(c, steps[..|steps| - 1]), steps[|steps| - 1])
  }

  predicate IsEvent(s: Step) {
    s.Arrived? || s.Emitted?
  }

  function EventOf(s: Step): seq<Event> {
    match s
    case Arrived(e) => [e]
    case Emitted(e) => [e]
    case _ => []
  }

  function Emits(steps: seq<Step>): seq<Event> {
    if steps == [] then []
    else
      var last := steps[|steps| - 1];
      Emits(steps[..|steps| - 1]) + EventOf(last)
  }

  /** What one listener was handed, in order. */
  function HeardBy(heard: seq<Handed>, l: nat): seq<Event> {
    if heard == [] then []
    else
      var last := heard[|heard| - 1];
      HeardBy(heard[..|heard| - 1], l) + if last.listener == l then [last.event] else []
  }

  lemma HeardMore(heard: seq<Handed>, h: Handed, l: nat)
    ensures HeardBy(heard + [h], l) == HeardBy(heard, l) + if h.listener == l then [h.event] else []
  {
    assert (heard + [h])[..|heard|] == heard;
  }

  /** What one listener is still owed by the hand-outs in progress: the inner ones come first. */
  function Owed(frames: seq<Frame>, l: nat): seq<Event> {
    if frames == [] then []
    else OwedBy(frames[|frames| - 1], l) + Owed(frames[..|frames| - 1], l)
  }

  function OwedBy(f: Frame, l: nat): seq<Event> {
    if f.HandOut? && l in f.rest then [f.event] else []
  }

  lemma OwedMore(frames: seq<Frame>, f: Frame, l: nat)
    ensures Owed(frames + [f], l) == OwedBy(f, l) + Owed(frames, l)
  {
    assert (frames + [f])[..|frames|] == frames;
  }

  // ---------------------------------------------------------------------
  // The invariant

  /** Only the flush queues events, it lies below all else, and it goes with the queue or the close. */
  ghost predicate Ok(c: Conn) {
    && Distinct(c.listeners)
    && (forall i :: 0 <= i < |c.frames| && c.frames[i].HandOut? ==> Distinct(c.frames[i].rest))
    && (forall i :: 0 < i < |c.frames| ==> c.frames[i].HandOut?)
    && (c.draining.Some? ==> c.buffered.None? && !c.closed && 0 < |c.frames| <= 2 && c.frames[0].Flush?)
    && (c.buffered.Some? ==> c.listeners == [] && c.frames == [] && !c.closed)
    && (c.closed ==> c.buffered.None?)
  }

  lemma HandToOk(c: Conn, e: Event)
    requires Ok(c) && c.buffered.None? && (c.draining.Some? ==> |c.frames| == 1)
    ensures Ok(HandTo(c, e))
  {
  }

  lemma TurnOk(c: Conn)
    requires Ok(c) && c.frames != []
    ensures Ok(TakeTurn(c))
  {
    var top := c.frames[|c.frames| - 1];
    if top.Flush? && !c.closed && QueueOf(c) != [] {
      HandToOk(c.(draining := Some(QueueOf(c)[1..])), QueueOf(c)[0]);
      hide HandTo;
    }
  }

  lemma StepOk(c: Conn, s: Step)
    requires Ok(c)
    ensures Ok(Next(c, s))
  {
    match s
    case Arrived(e) => if c.draining.None? && c.listeners != [] { HandToOk(c, e); }
    case Emitted(e) => if c.draining.None? && c.listeners != [] { HandToOk(c, e); }
    case Unsubscribed(l) => WithoutDistinct(c.listeners, l);
    case Turn => if c.frames != [] { TurnOk(c); }
    case _ =>
  }

  lemma {:induction false} RunOk(c: Conn, steps: seq<Step>)
    requires Ok(c)
    ensures Ok(Run(c, steps))
  {
    if steps != [] {
      RunOk(c, steps[..|steps| - 1]);
      StepOk(Run(c, steps[..|steps| - 1]), steps[|steps| - 1]);
      hide Ok;
      hide Next;
    }
  }

  /** Before anyone listens the buffer is what the arrivals so far leave. */
  lemma {:induction false} BufferedSoFar(steps: seq<Step>)
    requires forall s :: s in steps ==> IsEvent(s)
    ensures Run(START, steps) == START.(buffered := Some(BufferAll(Emits(steps))))
  {
    if steps != [] {
      var front, last := steps[..|steps| - 1], steps[|steps| - 1];
      assert last in steps;
      BufferedSoFar(front);
      assert EventOf(last) == [EventOf(last)[0]];
      assert (Emits(front) + EventOf(last))[..|Emits(front)|] == Emits(front);
      hide Arrive;
    }
  }

  // ---------------------------------------------------------------------
  // The order in which a listener is handed events

  /** What a listener has been handed, and what it will be if nothing more happens. */
  function Future(c: Conn, l: nat): seq<Event> {
    HeardBy(c.heard, l) + Owed(c.frames, l) + QueueOf(c)
  }

  /** An open connection the listener is registered with. */
  ghost predicate Listens(c: Conn, l: nat) {
    Ok(c) && !c.closed && c.buffered.None? && l in c.listeners
  }

  predicate Stays(s: Step, l: nat) {
    !s.Closed? && s != Unsubscribed(l)
  }

  /** An event emitted outside the flush while the listener is still owed an older one. */
  ghost predicate Overtakes(c: Conn, s: Step, l: nat) {
    IsEvent(s) && c.draining.None? && Owed(c.frames, l) != []
  }

  lemma Regroup(a: seq<Event>, x: seq<Event>, y: seq<Event>, b: seq<Event>, z: seq<Event>)
    requires x + y == z
    ensures (a + x) + (y + b) == a + z + b
  {
    assert (a + x) + (y + b) == a + (x + y) + b;
  }

  /** A snapshot's first listener is handed the event, any other is owed it. */
  lemma FirstOrOwed(listeners: seq<nat>, e: Event, l: nat)
    requires Distinct(listeners) && l in listeners
    ensures (if listeners[0] == l then [e] else []) + OwedBy(HandOut(e, listeners[1..]), l) == [e]
  {
    assert listeners == [listeners[0]] + listeners[1..];
    if listeners[0] == l {
      assert l !in listeners[1..];
    }
  }

  lemma HandToFuture(c: Conn, e: Event, l: nat)
    requires Distinct(c.listeners) && l in c.listeners
    ensures HeardBy(HandTo(c, e).heard, l) + Owed(HandTo(c, e).frames, l)
            == HeardBy(c.heard, l) + [e] + Owed(c.frames, l)
  {
    hide HeardBy;
    hide Owed;
    hide OwedBy;
    hide Distinct;
    FirstOrOwed(c.listeners, e, l);
    HeardMore(c.heard, Handed(c.listeners[0], e), l);
    OwedMore(c.frames, HandOut(e, c.listeners[1..]), l);
    Regroup(HeardBy(c.heard, l), if c.listeners[0] == l then [e] else [], OwedBy(HandOut(e, c.listeners[1..]), l),
            Owed(c.frames, l), [e]);
  }

  /** The next listener of a snapshot is handed what it was owed. */
  lemma NextHears(heard: seq<Handed>, outer: seq<Frame>, e: Event, rest: seq<nat>, l: nat)
    requires rest != [] && Distinct(rest)
    ensures HeardBy(heard + [Handed(rest[0], e)], l) + Owed(outer + [HandOut(e, rest[1..])], l)
            == HeardBy(heard, l) + Owed(outer + [HandOut(e, rest)], l)
  {
    hide HeardBy;
    hide Owed;
    HeardMore(heard, Handed(rest[0], e), l);
    OwedMore(outer, HandOut(e, rest[1..]), l);
    OwedMore(outer, HandOut(e, rest), l);
    assert rest == [rest[0]] + rest[1..];
    assert rest[0] == l ==> l !in rest[1..];
    Regroup(HeardBy(heard, l), if rest[0] == l then [e] else [], OwedBy(HandOut(e, rest[1..]), l), Owed(outer, l),
            OwedBy(HandOut(e, rest), l));
    hide Distinct;
  }

  lemma TurnFuture(c: Conn, l: nat)
    requires Listens(c, l) && c.frames != []
    ensures Future(TakeTurn(c), l) == Future(c, l)
  {
    hide HeardBy;
    hide Owed;
    hide HandTo;
    var outer, top := c.frames[..|c.frames| - 1], c.frames[|c.frames| - 1];
    assert c.frames == outer + [top];
    OwedMore(outer, top, l);
    match top
    case HandOut(e, rest) =>
      if rest != [] {
        NextHears(c.heard, outer, e, rest, l);
      }
    case Flush =>
      FlushFuture(c, l);
  }

  lemma FlushFuture(c: Conn, l: nat)
    requires Listens(c, l) && c.frames != [] && c.frames[|c.frames| - 1].Flush?
    ensures Future(TakeTurn(c), l) == Future(c, l)
  {
    hide HeardBy;
    assert c.frames == [Flush] && c.frames[..0] == [];
    assert Owed([Flush], l) == Owed([], l) == [];
    hide Owed;
    if QueueOf(c) != [] {
      var q := QueueOf(c);
      var popped := c.(draining := Some(q[1..]));
      HandToFuture(popped, q[0], l);
      assert QueueOf(HandTo(popped, q[0])) == q[1..];
      assert (HeardBy(c.heard, l) + [q[0]] + []) + q[1..] == HeardBy(c.heard, l) + [] + q;
    }
    hide HandTo;
  }

  /** An event comes last, unless it overtakes: then it comes before all that the listener is owed. */
  lemma EmitFuture(c: Conn, e: Event, l: nat)
    requires Listens(c, l)
    ensures c.draining.Some? || Owed(c.frames, l) == [] ==> Future(Emit(c, e), l) == Future(c, l) + [e]
    ensures c.draining.None? ==> Future(Emit(c, e), l) == HeardBy(c.heard, l) + [e] + Owed(c.frames, l)
  {
    hide HeardBy;
    hide Owed;
    hide Ok;
    if c.draining.Some? {
      var a := HeardBy(c.heard, l) + Owed(c.frames, l);
      assert a + (QueueOf(c) + [e]) == (a + QueueOf(c)) + [e];
    } else {
      SnapshotApart(c, l);
      HandToFuture(c, e, l);
      assert QueueOf(HandTo(c, e)) == [] == QueueOf(c);
      assert HeardBy(c.heard, l) + [] + [] == HeardBy(c.heard, l);
    }
    hide HandTo;
  }

  lemma SnapshotApart(c: Conn, l: nat)
    requires Listens(c, l)
    ensures Distinct(c.listeners)
  {
  }

  lemma StepListens(c: Conn, s: Step, l: nat)
    requires Listens(c, l) && Stays(s, l)
    ensures Listens(Next(c, s), l)
  {
    StepOk(c, s);
    hide Ok;
    hide Arrive;
  }

  lemma StepFuture(c: Conn, s: Step, l: nat)
    requires Listens(c, l) && Stays(s, l)
    ensures Listens(Next(c, s), l)
    ensures !Overtakes(c, s, l) ==> Future(Next(c, s), l) == Future(c, l) + EventOf(s)
    ensures Overtakes(c, s, l) ==> Future(Next(c, s), l) == HeardBy(c.heard, l) + EventOf(s) + Owed(c.frames, l)
  {
    StepListens(c, s, l);
    hide HeardBy;
    hide Owed;
    hide Ok;
    hide Emit;
    hide TakeTurn;
    match s
    case Arrived(e) => EmitFuture(c, e, l);
    case Emitted(e) => EmitFuture(c, e, l);
    case Turn => if c.frames != [] { TurnFuture(c, l); }
    case _ =>
  }

  ghost predicate AllStay(steps: seq<Step>, l: nat) {
    forall s :: s in steps ==> Stays(s, l)
  }

  ghost predicate OvertakenAt(c: Conn, steps: seq<Step>, l: nat, n: nat) {
    n < |steps| && Overtakes(Run(c, steps[..n]), steps[n], l)
  }

  ghost predicate Overtaken(c: Conn, steps: seq<Step>, l: nat) {
    exists n: nat :: OvertakenAt(c, steps, l, n)
  }

  lemma OvertakenLast(c: Conn, front: seq<Step>, last: Step, l: nat)
    ensures Overtaken(c, front + [last], l) <==> Overtaken(c, front, l) || Overtakes(Run(c, front), last, l)
  {
    hide Overtakes;
    hide Run;
    var steps := front + [last];
    forall n: nat | n < |front|
      ensures OvertakenAt(c, steps, l, n) <==> OvertakenAt(c, front, l, n)
    {
      assert steps[..n] == front[..n];
    }
    assert steps[..|front|] == front;
    if Overtakes(Run(c, front), last, l) {
      assert OvertakenAt(c, steps, l, |front|);
    }
    if Overtaken(c, front, l) {
      var n: nat :| OvertakenAt(c, front, l, n);
      assert OvertakenAt(c, steps, l, n);
    }
  }

  lemma {:induction false} RunListens(c: Conn, steps: seq<Step>, l: nat)
    requires Listens(c, l) && AllStay(steps, l)
    ensures Listens(Run(c, steps), l)
  {
    if steps != [] {
      assert steps[|steps| - 1] in steps;
      RunListens(c, steps[..|steps| - 1], l);
      StepListens(Run(c, steps[..|steps| - 1]), steps[|steps| - 1], l);
      hide Listens;
      hide Next;
    }
  }

  /** While nothing overtakes, what a listener hears and is still due is everything, in order of arrival. */
  lemma {:induction false} HeardInOrder(c: Conn, steps: seq<Step>, l: nat)
    requires Listens(c, l) && AllStay(steps, l) && !Overtaken(c, steps, l)
    ensures Future(Run(c, steps), l) == Future(c, l) + Emits(steps)
  {
    if steps != [] {
      var front, last := steps[..|steps| - 1], steps[|steps| - 1];
      assert steps == front + [last] && last in steps;
      OvertakenLast(c, front, last, l);
      HeardInOrder(c, front, l);
      RunListens(c, front, l);
      StepFuture(Run(c, front), last, l);
      assert (Future(c, l) + Emits(front)) + EventOf(last) == Future(c, l) + Emits(steps);
      hide *;
    }
  }

  // ---------------------------------------------------------------------
  // Once overtaken, never in order again

  ghost predicate Before(es: seq<Event>, x: Event, y: Event) {
    exists i, j :: 0 <= i < j < |es| && es[i] == x && es[j] == y
  }

  lemma BeforeGrows(a: seq<Event>, b: seq<Event>, c: seq<Event>, x: Event, y: Event)
    requires Before(a + c, x, y)
    ensures Before(a + b + c, x, y)
  {
    var i, j :| 0 <= i < j < |a + c| && (a + c)[i] == x && (a + c)[j] == y;
    var i', j' := if i < |a| then i else i + |b|, if j < |a| then j else j + |b|;
    assert (a + b + c)[i'] == x && (a + b + c)[j'] == y;
  }

  lemma BeforeStays(c: Conn, s: Step, l: nat, x: Event, y: Event)
    requires Listens(c, l) && Stays(s, l) && Before(Future(c, l), x, y)
    ensures Before(Future(Next(c, s), l), x, y)
  {
    hide HeardBy;
    hide Owed;
    hide Next;
    hide Listens;
    hide Before;
    hide EventOf;
    StepFuture(c, s, l);
    var heard, owed, queue := HeardBy(c.heard, l), Owed(c.frames, l), QueueOf(c);
    if Overtakes(c, s, l) {
      assert Future(c, l) == heard + owed;
      BeforeGrows(heard, EventOf(s), owed, x, y);
    } else {
      assert Future(c, l) + [] == Future(c, l) && Future(c, l) + EventOf(s) + [] == Future(c, l) + EventOf(s);
      BeforeGrows(Future(c, l), EventOf(s), [], x, y);
    }
    hide Future;
  }

  lemma OvertakingSwaps(c: Conn, s: Step, l: nat)
    requires Listens(c, l) && Stays(s, l) && Overtakes(c, s, l)
    ensures EventOf(s) != [] && Before(Future(Next(c, s), l), EventOf(s)[0], Owed(c.frames, l)[0])
    ensures Owed(c.frames, l)[0] in Future(c, l)
  {
    StepFuture(c, s, l);
    hide HeardBy;
    hide Owed;
    hide Next;
    hide Listens;
    var heard, owed := HeardBy(c.heard, l), Owed(c.frames, l);
    var after := heard + EventOf(s) + owed;
    assert after[|heard|] == EventOf(s)[0] && after[|heard| + 1] == owed[0];
    assert Future(c, l)[|heard|] == owed[0];
  }

  /** Every event stays in a listener's future, and new ones come from the steps. */
  lemma {:induction false} FutureMembers(c: Conn, steps: seq<Step>, l: nat)
    requires Listens(c, l) && AllStay(steps, l)
    ensures forall x :: x in Future(Run(c, steps), l) <==> x in Future(c, l) + Emits(steps)
  {
    if steps != [] {
      var front, last := steps[..|steps| - 1], steps[|steps| - 1];
      assert last in steps;
      FutureMembers(c, front, l);
      RunListens(c, front, l);
      StepFuture(Run(c, front), last, l);
      StepMembers(Run(c, front), last, l);
      hide Future;
      hide Listens;
      hide Next;
      hide Overtakes;
      hide HeardBy;
      hide Owed;
    }
  }

  lemma StepMembers(c: Conn, s: Step, l: nat)
    requires Listens(c, l) && Stays(s, l)
    ensures forall x :: x in Future(Next(c, s), l) <==> x in Future(c, l) || x in EventOf(s)
  {
    StepFuture(c, s, l);
    hide HeardBy;
    hide Owed;
    hide Next;
    hide Listens;
  }

  /** An overtaken event comes after its overtaker from then on. */
  lemma {:induction false} SwappedForGood(c: Conn, steps: seq<Step>, l: nat) returns (n: nat, older: Event)
    requires Listens(c, l) && AllStay(steps, l) && Overtaken(c, steps, l)
    ensures OvertakenAt(c, steps, l, n) && EventOf(steps[n]) != []
    ensures older in Future(c, l) + Emits(steps[..n])
    ensures Before(Future(Run(c, steps), l), EventOf(steps[n])[0], older)
  {
    var front, last := steps[..|steps| - 1], steps[|steps| - 1];
    assert steps == front + [last] && last in steps;
    RunListens(c, front, l);
    OvertakenLast(c, front, last, l);
    if Overtaken(c, front, l) {
      n, older := SwappedForGood(c, front, l);
      assert front[..n] == steps[..n];
      BeforeStays(Run(c, front), last, l, EventOf(steps[n])[0], older);
    } else {
      n := |front|;
      OvertakingSwaps(Run(c, front), last, l);
      older := Owed(Run(c, front).frames, l)[0];
      FutureMembers(c, front, l);
    }
    hide Listens;
    hide Future;
    hide Overtakes;
    hide Before;
    hide Next;
  }

  lemma NotBefore(all: seq<Event>, a: seq<Event>, rest: seq<Event>, x: Event, y: Event)
    requires all == a + [x] + rest && Distinct(all) && y in a
    ensures !Before(all, x, y)
  {
    var k :| 0 <= k < |a| && a[k] == y;
    assert all[|a|] == x && all[k] == y;
  }

  lemma EmitsLast(front: seq<Step>, last: Step)
    ensures Emits(front + [last]) == Emits(front) + EventOf(last)
  {
    assert (front + [last])[..|front|] == front;
  }

  lemma Append(all: seq<Event>, a: seq<Event>, x: seq<Event>, b: seq<Event>, c: seq<Event>)
    requires all == a + x + b
    ensures all + c == a + x + (b + c)
  {
  }

  lemma {:induction false} EmitsSplit(steps: seq<Step>, n: nat) returns (rest: seq<Event>)
    requires n < |steps|
    ensures Emits(steps) == Emits(steps[..n]) + EventOf(steps[n]) + rest
    decreases |steps|
  {
    hide Emits;
    hide EventOf;
    var front, last := steps[..|steps| - 1], steps[|steps| - 1];
    assert steps == front + [last];
    EmitsLast(front, last);
    if n == |front| {
      rest := [];
      assert Emits(front) + EventOf(last) + [] == Emits(front) + EventOf(last);
    } else {
      var before := EmitsSplit(front, n);
      assert front[..n] == steps[..n] && front[n] == steps[n];
      Append(Emits(front), Emits(steps[..n]), EventOf(steps[n]), before, EventOf(last));
      rest := before + EventOf(last);
    }
  }

  /**
   * A listener hears events in order of arrival exactly when none is emitted, outside the flush,
   * while it is still owed an older one: such an event is handed to it first.
   */
  lemma HeardInOrderExactly(c: Conn, steps: seq<Step>, l: nat)
    requires Listens(c, l) && AllStay(steps, l) && Distinct(Future(c, l) + Emits(steps))
    ensures Future(Run(c, steps), l) == Future(c, l) + Emits(steps) <==> !Overtaken(c, steps, l)
  {
    hide *;
    if Overtaken(c, steps, l) {
      var n, older := SwappedForGood(c, steps, l);
      OvertakenWithin(c, steps, l, n);
      var rest := EmitsSplit(steps, n);
      EventAlone(steps[n]);
      Prepend(Future(c, l), Emits(steps[..n]), EventOf(steps[n]), rest);
      NotBefore(Future(c, l) + Emits(steps), Future(c, l) + Emits(steps[..n]), rest, EventOf(steps[n])[0], older);
    } else {
      HeardInOrder(c, steps, l);
    }
  }

  lemma OvertakenWithin(c: Conn, steps: seq<Step>, l: nat, n: nat)
    requires OvertakenAt(c, steps, l, n)
    ensures n < |steps|
  {
  }

  lemma Prepend(f: seq<Event>, a: seq<Event>, x: seq<Event>, b: seq<Event>)
    ensures f + (a + x + b) == (f + a) + x + b
  {
  }

  /** Once everything has run its course, what a listener heard since is everything in order unless it was overtaken. */
  lemma HeardAtRest(c: Conn, steps: seq<Step>, l: nat)
    requires Listens(c, l) && AllStay(steps, l) && c.frames == [] && c.draining.None?
    requires Run(c, steps).frames == [] && Run(c, steps).draining.None?
    requires Distinct(HeardBy(c.heard, l) + Emits(steps))
    ensures HeardBy(Run(c, steps).heard, l) == HeardBy(c.heard, l) + Emits(steps) <==> !Overtaken(c, steps, l)
  {
    hide *;
    AtRest(c, l);
    AtRest(Run(c, steps), l);
    HeardInOrderExactly(c, steps, l);
  }

  lemma AtRest(c: Conn, l: nat)
    requires c.frames == [] && c.draining.None?
    ensures Future(c, l) == HeardBy(c.heard, l)
  {
    hide HeardBy;
    assert HeardBy(c.heard, l) + [] + [] == HeardBy(c.heard, l);
  }

  lemma EventAlone(s: Step)
    requires EventOf(s) != []
    ensures EventOf(s) == [EventOf(s)[0]]
  {
  }

  // ---------------------------------------------------------------------
  // The first subscriber

  /** First in every snapshot, so never owed anything. */
  ghost predicate First(c: Conn, l: nat) {
    Listens(c, l) && c.listeners[0] == l && Owed(c.frames, l) == []
  }

  lemma HandToFirst(c: Conn, e: Event, l: nat)
    requires Distinct(c.listeners) && l in c.listeners && c.listeners[0] == l && Owed(c.frames, l) == []
    ensures Owed(HandTo(c, e).frames, l) == []
  {
    OwedMore(c.frames, HandOut(e, c.listeners[1..]), l);
    assert c.listeners == [c.listeners[0]] + c.listeners[1..];
    assert l !in c.listeners[1..];
  }

  lemma OwedOuter(frames: seq<Frame>, l: nat)
    requires frames != [] && Owed(frames, l) == []
    ensures Owed(frames[..|frames| - 1], l) == [] && OwedBy(frames[|frames| - 1], l) == []
  {
  }

  lemma TurnFirst(c: Conn, l: nat)
    requires First(c, l) && c.frames != []
    ensures Owed(TakeTurn(c).frames, l) == []
  {
    hide Owed;
    var outer, top := c.frames[..|c.frames| - 1], c.frames[|c.frames| - 1];
    OwedOuter(c.frames, l);
    match top
    case HandOut(e, rest) =>
      if rest != [] {
        OwedMore(outer, HandOut(e, rest[1..]), l);
        assert rest == [rest[0]] + rest[1..];
      }
    case Flush =>
      if QueueOf(c) != [] {
        HandToFirst(c.(draining := Some(QueueOf(c)[1..])), QueueOf(c)[0], l);
      }
  }

  lemma StepFirst(c: Conn, s: Step, l: nat)
    requires First(c, l) && Stays(s, l)
    ensures First(Next(c, s), l) && !Overtakes(c, s, l)
  {
    StepListens(c, s, l);
    hide Owed;
    hide TakeTurn;
    hide HandTo;
    match s
    case Arrived(e) => HandToFirst(c, e, l); HandToKeeps(c, e);
    case Emitted(e) => HandToFirst(c, e, l); HandToKeeps(c, e);
    case Unsubscribed(m) => assert Without(c.listeners, m)[0] == l;
    case Subscribed(m) => FlushOwesNothing(c.frames, l);
    case Turn => if c.frames != [] { TurnFirst(c, l); TurnKeeps(c); }
    case _ =>
  }

  lemma HandToKeeps(c: Conn, e: Event)
    ensures HandTo(c, e).listeners == c.listeners
  {
  }

  lemma TurnKeeps(c: Conn)
    requires c.frames != []
    ensures TakeTurn(c).listeners == c.listeners
  {
  }

  lemma FlushOwesNothing(frames: seq<Frame>, l: nat)
    ensures Owed(frames + [Flush], l) == Owed(frames, l)
  {
    OwedMore(frames, Flush, l);
  }

  lemma {:induction false} FirstNeverOvertaken(c: Conn, steps: seq<Step>, l: nat)
    requires First(c, l) && AllStay(steps, l)
    ensures First(Run(c, steps), l) && !Overtaken(c, steps, l)
  {
    if steps != [] {
      var front, last := steps[..|steps| - 1], steps[|steps| - 1];
      assert steps == front + [last] && last in steps;
      FirstNeverOvertaken(c, front, l);
      StepFirst(Run(c, front), last, l);
      OvertakenLast(c, front, last, l);
      hide First;
      hide Overtakes;
      hide Next;
    }
  }

  /** Subscribing first to what is buffered. */
  lemma FirstSubscribes(before: seq<Step>, l: nat)
    requires forall s :: s in before ==> IsEvent(s)
    ensures var c := Next(Run(START, before), Subscribed(l));
            First(c, l) && Future(c, l) == BufferAll(Emits(before))
  {
    BufferedSoFar(before);
    FlushOwesNothing([], l);
    assert [] + [Flush] == [Flush];
    assert [] + [] + BufferAll(Emits(before)) == BufferAll(Emits(before));
    hide BufferAll;
  }

  /**
   * The first subscriber is handed what was buffered and then everything that arrived since, in
   * order of arrival, whatever listeners provoke in their turns and whoever else comes and goes:
   * nothing is lost, and what it was not handed yet waits in the flush's queue.
   */
  lemma SeenInOrder(before: seq<Step>, after: seq<Step>, l: nat)
    requires (forall s :: s in before ==> IsEvent(s)) && AllStay(after, l)
    ensures var c := Run(Next(Run(START, before), Subscribed(l)), after);
            HeardBy(c.heard, l) + QueueOf(c) == BufferAll(Emits(before)) + Emits(after)
  {
    hide *;
    var start := Next(Run(START, before), Subscribed(l));
    var c := Run(start, after);
    FirstSubscribes(before, l);
    FirstListens(start, l);
    FirstNeverOvertaken(start, after, l);
    HeardInOrder(start, after, l);
    FirstListens(c, l);
  }

  lemma FirstListens(c: Conn, l: nat)
    requires First(c, l)
    ensures Listens(c, l) && Future(c, l) == HeardBy(c.heard, l) + QueueOf(c)
  {
    hide Listens;
    hide HeardBy;
    assert HeardBy(c.heard, l) + [] + QueueOf(c) == HeardBy(c.heard, l) + QueueOf(c);
  }

  /** Once the flush is over the first subscriber has been handed everything. */
  lemma SeenEverything(before: seq<Step>, after: seq<Step>, l: nat)
    requires (forall s :: s in before ==> IsEvent(s)) && AllStay(after, l)
    requires Run(Next(Run(START, before), Subscribed(l)), after).draining.None?
    ensures HeardBy(Run(Next(Run(START, before), Subscribed(l)), after).heard, l) ==
            BufferAll(Emits(before)) + Emits(after)
  {
    SeenInOrder(before, after, l);
    var c := Run(Next(Run(START, before), Subscribed(l)), after);
    hide *;
    assert HeardBy(c.heard, l) + [] == HeardBy(c.heard, l);
    QueueGone(c);
  }

  lemma QueueGone(c: Conn)
    requires c.draining.None?
    ensures QueueOf(c) == []
  {
  }

  // ---------------------------------------------------------------------
  // After close

  /** A closed connection keeps no queue and never opens again; its hand-outs in progress go on. */
  ghost predicate Shut(c: Conn) {
    Ok(c) && c.closed && c.draining.None?
  }

  lemma CloseShuts(c: Conn)
    requires Ok(c) && !c.closed
    ensures var done := Next(c, Closed);
            Shut(done) && done.listeners == [] && done.frames == c.frames && done.heard == c.heard
  {
  }

  /** How many events one listener was handed or is owed. */
  function Dealt(c: Conn, l: nat): nat {
    |HeardBy(c.heard, l)| + |Owed(c.frames, l)|
  }

  /** A bare emission that reaches a listener registered with a closed connection. */
  predicate Leaks(c: Conn, s: Step, l: nat) {
    s.Emitted? && l in c.listeners
  }

  lemma HandToDeals(c: Conn, e: Event, l: nat)
    requires Distinct(c.listeners)
    ensures Dealt(HandTo(c, e), l) == Dealt(c, l) + if l in c.listeners then 1 else 0
  {
    hide HeardBy;
    hide Owed;
    if c.listeners != [] {
      HeardMore(c.heard, Handed(c.listeners[0], e), l);
      OwedMore(c.frames, HandOut(e, c.listeners[1..]), l);
      assert c.listeners == [c.listeners[0]] + c.listeners[1..];
      assert c.listeners[0] == l ==> l !in c.listeners[1..];
    }
  }

  lemma TurnDeals(c: Conn, l: nat)
    requires Shut(c) && c.frames != []
    ensures Dealt(TakeTurn(c), l) == Dealt(c, l)
    ensures HeardBy(c.heard, l) <= HeardBy(TakeTurn(c).heard, l)
  {
    hide HeardBy;
    hide Owed;
    var outer, top := c.frames[..|c.frames| - 1], c.frames[|c.frames| - 1];
    assert c.frames == outer + [top];
    OwedMore(outer, top, l);
    if top.HandOut? && top.rest != [] {
      var e, rest := top.event, top.rest;
      HeardMore(c.heard, Handed(rest[0], e), l);
      OwedMore(outer, HandOut(e, rest[1..]), l);
      assert rest == [rest[0]] + rest[1..];
      assert rest[0] == l ==> l !in rest[1..];
    }
  }

  lemma StepDeals(c: Conn, s: Step, l: nat)
    requires Shut(c)
    ensures Shut(Next(c, s)) && Dealt(Next(c, s), l) == Dealt(c, l) + if Leaks(c, s, l) then 1 else 0
    ensures HeardBy(c.heard, l) <= HeardBy(Next(c, s).heard, l)
  {
    StepOk(c, s);
    hide HeardBy;
    hide Owed;
    match s
    case Emitted(e) =>
      if c.listeners != [] {
        HandToDeals(c, e, l);
        HeardMore(c.heard, Handed(c.listeners[0], e), l);
      }
    case Turn => if c.frames != [] { TurnDeals(c, l); }
    case _ =>
    hide HandTo;
    hide TakeTurn;
  }

  /** How many bare emissions reach a listener registered with the closed connection. */
  function Leaked(c: Conn, steps: seq<Step>, l: nat): nat {
    if steps == [] then 0
    else
      var front, last := steps[..|steps| - 1], steps[|steps| - 1];
      Leaked(c, front, l) + if Leaks(Run(c, front), last, l) then 1 else 0
  }

  /**
   * After the close a listener is dealt exactly what it was owed then, and one event for each bare
   * emission while it is registered again: nothing else reaches it, and none of that is lost.
   */
  lemma {:induction false} DealtAfterClose(c: Conn, steps: seq<Step>, l: nat)
    requires Shut(c)
    ensures Shut(Run(c, steps)) && Dealt(Run(c, steps), l) == Dealt(c, l) + Leaked(c, steps, l)
    ensures HeardBy(c.heard, l) <= HeardBy(Run(c, steps).heard, l)
  {
    if steps != [] {
      var front, last := steps[..|steps| - 1], steps[|steps| - 1];
      DealtAfterClose(c, front, l);
      StepDeals(Run(c, front), last, l);
      hide Shut;
      hide Dealt;
      hide Next;
      hide Leaks;
      hide HeardBy;
    }
  }

  /** Whether a subscription of the listener made in these steps is still registered. */
  predicate Resubscribed(steps: seq<Step>, l: nat) {
    steps != [] && (steps[|steps| - 1] == Subscribed(l)
                    || (steps[|steps| - 1] != Unsubscribed(l) && Resubscribed(steps[..|steps| - 1], l)))
  }

  lemma {:induction false} RegisteredAfterClose(c: Conn, steps: seq<Step>, l: nat)
    requires Shut(c) && l !in c.listeners
    ensures Shut(Run(c, steps)) && (l in Run(c, steps).listeners <==> Resubscribed(steps, l))
  {
    if steps != [] {
      var front, last := steps[..|steps| - 1], steps[|steps| - 1];
      RegisteredAfterClose(c, front, l);
      StepDeals(Run(c, front), last, l);
      StepRegisters(Run(c, front), last, l);
      hide Shut;
      hide Next;
    }
  }

  lemma StepRegisters(c: Conn, s: Step, l: nat)
    requires Shut(c)
    ensures l in Next(c, s).listeners <==> s == Subscribed(l) || (s != Unsubscribed(l) && l in c.listeners)
  {
  }

  ghost predicate LeaksAt(steps: seq<Step>, l: nat, n: nat) {
    n < |steps| && steps[n].Emitted? && Resubscribed(steps[..n], l)
  }

  /** A bare emission comes while a subscription made since the close is registered. */
  ghost predicate LeaksSome(steps: seq<Step>, l: nat) {
    exists n: nat :: LeaksAt(steps, l, n)
  }

  lemma LeaksLast(front: seq<Step>, last: Step, l: nat)
    ensures LeaksSome(front + [last], l) <==> LeaksSome(front, l) || (last.Emitted? && Resubscribed(front, l))
  {
    hide Resubscribed;
    var steps := front + [last];
    forall n: nat | n < |front|
      ensures LeaksAt(steps, l, n) <==> LeaksAt(front, l, n)
    {
      assert steps[..n] == front[..n];
    }
    assert steps[..|front|] == front;
    if last.Emitted? && Resubscribed(front, l) {
      assert LeaksAt(steps, l, |front|);
    }
    if LeaksSome(front, l) {
      var n: nat :| LeaksAt(front, l, n);
      assert LeaksAt(steps, l, n);
    }
  }

  lemma {:induction false} LeakedExactly(c: Conn, steps: seq<Step>, l: nat)
    requires Shut(c) && l !in c.listeners
    ensures Leaked(c, steps, l) > 0 <==> LeaksSome(steps, l)
  {
    if steps != [] {
      var front, last := steps[..|steps| - 1], steps[|steps| - 1];
      assert steps == front + [last];
      LeakedExactly(c, front, l);
      RegisteredAfterClose(c, front, l);
      LeaksLast(front, last, l);
      hide Shut;
      hide LeaksSome;
      hide Resubscribed;
      hide Run;
    } else {
      assert forall n: nat :: !LeaksAt(steps, l, n);
    }
  }

  /**
   * Once every hand-out has run its course, a listener was handed something after the close exactly
   * when the close was made in the turn of an earlier listener of a snapshot that holds it, or a bare
   * emission came while it was subscribed again.
   */
  lemma SilentOnceClosedExactly(before: seq<Step>, steps: seq<Step>, l: nat)
    requires !Run(START, before).closed
    requires Run(Next(Run(START, before), Closed), steps).frames == []
    ensures var c := Run(START, before);
            HeardBy(Run(Next(c, Closed), steps).heard, l) == HeardBy(c.heard, l) <==>
              Owed(c.frames, l) == [] && !LeaksSome(steps, l)
  {
    var c := Run(START, before);
    RunOk(START, before);
    CloseShuts(c);
    hide Run;
    hide Next;
    hide Ok;
    DealtAfterClose(Next(c, Closed), steps, l);
    LeakedExactly(Next(c, Closed), steps, l);
    hide HeardBy;
  }

  /** Behind the callers' tests, and with nothing owed at the close, a closed connection hands out nothing more. */
  lemma SilentOnceClosed(before: seq<Step>, steps: seq<Step>, l: nat)
    requires var c := Run(START, before); !c.closed && Owed(c.frames, l) == []
    requires forall s :: s in steps ==> !s.Emitted?
    ensures var c := Run(START, before); HeardBy(Run(Next(c, Closed), steps).heard, l) == HeardBy(c.heard, l)
  {
    var c := Run(START, before);
    RunOk(START, before);
    CloseShuts(c);
    forall n: nat
      ensures !LeaksAt(steps, l, n)
    {
      if n < |steps| {
        assert steps[n] in steps;
      }
    }
    hide Run;
    hide Next;
    hide Ok;
    hide LeaksAt;
    hide HeardBy;
    DealtAfterClose(Next(c, Closed), steps, l);
    LeakedExactly(Next(c, Closed), steps, l);
  }

  // ---------------------------------------------------------------------
  // Runs that show it

  lemma RunOnce(steps: seq<Step>, s: Step)
    ensures Run(START, steps + [s]) == Next(Run(START, steps), s)
  {
    assert (steps + [s])[..|steps|] == steps;
  }

  /** The first listener is subscribed and its flush of nothing is over, and a second one is subscribed. */
  function TwoListen(): Conn {
    Conn(None, None, false, [1, 2], [], [])
  }

  lemma BothListen() returns (steps: seq<Step>)
    ensures Run(START, steps) == TwoListen()
  {
    steps := [Subscribed(1)] + [Turn] + [Subscribed(2)];
    RunOnce([], Subscribed(1));
    assert [] + [Subscribed(1)] == [Subscribed(1)];
    RunOnce([Subscribed(1)], Turn);
    RunOnce([Subscribed(1)] + [Turn], Subscribed(2));
    assert Next(START, Subscribed(1)) == Conn(None, Some([]), false, [1], [Flush], []);
    assert [Flush][..0] == [];
  }

  /** A listener that closes the connection in its turn: the next listener is handed the event all the same. */
  lemma HeardInSnapshot(e: Event) returns (before: seq<Step>)
    ensures var c := Run(START, before + [Arrived(e)] + [Closed] + [Turn]);
            c.closed && c.heard == [Handed(1, e), Handed(2, e)]
    ensures Run(START, before + [Arrived(e)] + [Closed]).closed
    ensures Run(START, before + [Arrived(e)] + [Closed]).heard == [Handed(1, e)]
  {
    before := BothListen();
    RunOnce(before, Arrived(e));
    RunOnce(before + [Arrived(e)], Closed);
    RunOnce(before + [Arrived(e)] + [Closed], Turn);
    hide Run;
    assert [1, 2][1..] == [2] && [HandOut(e, [2])][..0] == [];
  }

  /** A listener that closes the connection and subscribes again is handed the second of two emissions in a row. */
  lemma HeardAfterClose(first: Event, second: Event) returns (before: seq<Step>)
    ensures var c := Run(START, before + [Arrived(first)] + [Closed] + [Subscribed(1)] + [Emitted(second)]);
            c.closed && HeardBy(c.heard, 1) == [first, second]
  {
    before := BothListen();
    RunOnce(before, Arrived(first));
    RunOnce(before + [Arrived(first)], Closed);
    RunOnce(before + [Arrived(first)] + [Closed], Subscribed(1));
    RunOnce(before + [Arrived(first)] + [Closed] + [Subscribed(1)], Emitted(second));
    hide Run;
    HeardTwo(1, first, second);
  }

  lemma HeardTwo(l: nat, a: Event, b: Event)
    ensures HeardBy([Handed(l, a), Handed(l, b)], l) == [a, b]
  {
    HeardMore([], Handed(l, a), l);
    HeardMore([Handed(l, a)], Handed(l, b), l);
    assert [] + [Handed(l, a)] == [Handed(l, a)] && [Handed(l, a)] + [Handed(l, b)] == [Handed(l, a), Handed(l, b)];
  }

  /** An event the first listener provokes in its turn reaches the second listener before the one provoking it. */
  lemma InnerEventFirst(outer: Event, inner: Event) returns (before: seq<Step>)
    ensures Run(START, before + [Arrived(outer)] + [Arrived(inner)] + [Turn] + [Turn] + [Turn]).heard ==
            [Handed(1, outer), Handed(1, inner), Handed(2, inner), Handed(2, outer)]
  {
    before := BothListen();
    var s1 := before + [Arrived(outer)];
    var s2 := s1 + [Arrived(inner)];
    var s3 := s2 + [Turn];
    var s4 := s3 + [Turn];
    RunOnce(before, Arrived(outer));
    RunOnce(s1, Arrived(inner));
    RunOnce(s2, Turn);
    RunOnce(s3, Turn);
    RunOnce(s4, Turn);
    hide Run;
    assert [1, 2][1..] == [2];
    assert Run(START, s2).frames == [HandOut(outer, [2]), HandOut(inner, [2])];
    assert Run(START, s3).frames == [HandOut(outer, [2]), HandOut(inner, [])];
    assert Run(START, s4).frames == [HandOut(outer, [2])];
  }

  // ---------------------------------------------------------------------
  // The class

  /** The connection's methods, updating its fields in place; a listener's turn is the time between two calls. */
  class CollabConnection {
    var buffered: Option<seq<Event>>
    var draining: Option<seq<Event>>
    var closed: bool
    var listeners: seq<nat>
    var frames: seq<Frame>
    ghost var heard: seq<Handed>

    ghost function Contents(): Conn
      reads this
    {
      Conn(buffered, draining, closed, listeners, frames, heard)
    }

    constructor ()
      ensures Contents() == START
    {
      buffered, draining, closed, listeners, frames := Some([]), None, false, [], [];
      heard := [];
    }

    /** An event from the wire, or one a listener provoked: dropped once closed. */
    method Receive(event: Event)
      modifies this
      ensures Contents() == Next(old(Contents()), Arrived(event))
    {
      if closed {
        return;
      }
      Emit(event);
    }

    /** The bare emission, up to the turn of the first listener. */
    method Emit(event: Event)
      modifies this
      ensures Contents() == Next(old(Contents()), Emitted(event))
    {
      if draining.Some? {
        draining := Some(draining.value + [event]);
        return;
      }
      if listeners == [] {
        if buffered.Some? && !event.kind.PresenceKind? && !event.kind.DisconnectedKind? {
          var events := buffered.value + [event];
          if |events| > PRE_SUBSCRIBE_BUFFER_CAP {
            var index := FindOp(events);
            var oldest := if index < |events| then index else 0;
            events := events[..oldest] + events[oldest + 1..];
          }
          buffered := Some(events);
        }
        return;
      }
      Begin(event);
    }

    /** A snapshot of the listeners is taken, and its first one is handed the event. */
    method Begin(event: Event)
      modifies this`frames, this`heard
      ensures Contents() == HandTo(old(Contents()), event)
    {
      if listeners != [] {
        heard := heard + [Handed(listeners[0], event)];
        frames := frames + [HandOut(event, listeners[1..])];
      }
    }

    /** A subscription; the first one begins the flush of the buffer. A closed connection takes it too. */
    method OnEvent(listener: nat)
      modifies this
      ensures Contents() == Next(old(Contents()), Subscribed(listener))
    {
      if listener !in listeners {
        listeners := listeners + [listener];
      }
      if buffered.Some? {
        draining := buffered;
        buffered := None;
        frames := frames + [Flush];
      }
    }

    /**
     * What follows a listener's turn: the next listener of the snapshot is handed the event, or the
     * hand-out is over; the flush takes its next event, or ends.
     */
    method GoOn()
      requires frames != []
      modifies this
      ensures Contents() == Next(old(Contents()), Turn)
    {
      var outer := frames[..|frames| - 1];
      match frames[|frames| - 1] {
        case HandOut(event, rest) =>
          frames := outer;
          if rest != [] {
            heard := heard + [Handed(rest[0], event)];
            frames := outer + [HandOut(event, rest[1..])];
          }
        case Flush =>
          if closed || draining.None? || draining.value == [] {
            frames, draining := outer, None;
            return;
          }
          var event := draining.value[0];
          draining := Some(draining.value[1..]);
          Begin(event);
      }
    }

    method Unsubscribe(listener: nat)
      modifies this`listeners
      ensures Contents() == Next(old(Contents()), Unsubscribed(listener))
    {
      listeners := Without(listeners, listener);
    }

    method Close()
      modifies this
      ensures Contents() == Next(old(Contents()), Closed)
    {
      if closed {
        return;
      }
      closed, listeners := true, [];
      buffered, draining := None, None;
    }
  }

  method FindOp(events: seq<Event>) returns (index: nat)
    ensures index == FirstOp(events)
  {
    index := 0;
    while index < |events| && !IsOp(events[index])
      invariant index <= |events| && forall k :: 0 <= k < index ==> !IsOp(events[k])
    {
      index := index + 1;
    }
  }
}
