/**
 * The reconciliation passes over the execution store, in the stretches between their awaits and
 * interleaved with reconnects and live events: a loss verdict is only ever passed by a pass that
 * no reconnect has superseded, on a run of its own connection.
 */
module Reconcile {
  import opened Identity
  import opened Ordered
  import opened ExecutionStates
  import Spec = StoreCore
  import StoreInvariant
  import opened ReconcileTrack

  /** The native protocol reads job records; the other reads history entries and the queue. */
  datatype Protocol = Native | History

  datatype Phase = AwaitJob | AwaitHistory | AwaitQueue | AwaitFinal

  /** A pass between awaits: the runs it found open, the one it asks about, and what it waits for. */
  datatype Pass =
    | Waiting(open: seq<ExecutionRef>, i: nat, phase: Phase, queued: Option<set<Id>>)
    | Ended(ok: bool)

  /** The server's answer; a found record comes with the store operations its replay makes. */
  datatype Reply = Failed | Missing | Found(replay: seq<Spec.Op>) | Queue(prompts: set<Id>)

  /** What a stretch does to the store before the pass waits again. */
  datatype Effect = Quiet | Replay(ops: seq<Spec.Op>) | Lose(ref: ExecutionRef)

  predicate IsOpen(protocol: Protocol, s: ExecutionState) {
    s.status == QueuedStatus || s.status == RunningStatus
    || (protocol.Native? && s.status == CompletedStatus && !s.artifactsHydrated)
  }

  function OpenOf(protocol: Protocol, connection: Id, c: Spec.Core): ExecutionRef -> bool {
    (r: ExecutionRef) => r in c.entries && Spec.OnConnection(r, connection) && IsOpen(protocol, c.entries[r])
  }

  /** The head of the loop: a finished or superseded pass ends, any other asks about the next run. */
  function Head(protocol: Protocol, open: seq<ExecutionRef>, i: nat, queued: Option<set<Id>>, current: bool): Pass {
    if i >= |open| || !current then Ended(true)
    else Waiting(open, i, if protocol.Native? then AwaitJob else AwaitHistory, queued)
  }

  function OpenRuns(protocol: Protocol, connection: Id, c: Spec.Core): seq<ExecutionRef> {
    Filter(c.order, OpenOf(protocol, connection, c))
  }

  /** A pass begins with the runs of its connection that are open now. */
  function Begin(protocol: Protocol, connection: Id, c: Spec.Core): Pass {
    Head(protocol, OpenRuns(protocol, connection, c), 0, None, true)
  }

  /** The queue read covers every run without history in the pass. */
  function AfterQueue(p: Pass, queued: set<Id>, current: bool): Pass
    requires p.Waiting? && p.i < |p.open|
  {
    if p.open[p.i].prompt in queued then Head(History, p.open, p.i + 1, Some(queued), current)
    else Waiting(p.open, p.i, AwaitFinal, Some(queued))
  }

  /** One stretch: the reply is handled and the pass runs on to its next await or its end. */
  function Resume(protocol: Protocol, p: Pass, reply: Reply, current: bool): (Pass, Effect)
    requires p.Waiting? && p.i < |p.open|
  {
    var ref := p.open[p.i];
    var next := Head(protocol, p.open, p.i + 1, p.queued, current);
    match p.phase
    case AwaitQueue =>
      if reply.Queue? then (AfterQueue(p, reply.prompts, current), Quiet) else (Ended(false), Quiet)
    case AwaitHistory =>
      if reply.Found? then (next, Replay(reply.replay))
      else if !reply.Missing? then (next, Quiet)
      else if p.queued.None? then (p.(phase := AwaitQueue), Quiet)
      else (AfterQueue(p, p.queued.value, current), Quiet)
    case _ =>
      if reply.Found? then (next, Replay(reply.replay))
      else if !reply.Missing? then (next, Quiet)
      else (next, if current then Lose(ref) else Quiet)
  }

  // ---------------------------------------------------------------------
  // Passes, records and the store together

  datatype Question = JobOf(prompt: Id) | HistoryOf(prompt: Id) | QueueRead

  /** The request a pass waits for. */
  function Asks(p: Pass): Question
    requires p.Waiting? && p.i < |p.open|
  {
    match p.phase
    case AwaitJob => JobOf(p.open[p.i].prompt)
    case AwaitQueue => QueueRead
    case _ => HistoryOf(p.open[p.i].prompt)
  }

  /** One exchange of a pass: about which of its runs, and whether the pass was current when the reply came. */
  datatype Told = Told(run: nat, question: Question, reply: Reply, current: bool, effect: Effect, at: nat)

  /** What a pass found when it began, and all it asked and was told since. */
  datatype Record = Record(key: Id, began: nat, found: Spec.Core, open: seq<ExecutionRef>, told: seq<Told>)

  /** A verdict passed at a time by the pass a loop was running. */
  datatype Verdict = Verdict(ref: ExecutionRef, key: Id, began: nat, at: nat)

  /** `passes` and `records` list what the loop at the same place is running; `past` has the passes that ended. */
  datatype System = System(world: World, passes: seq<Pass>, records: seq<Record>, past: seq<Record>, store: Spec.Core,
                           verdicts: seq<Verdict>)

  datatype Event =
    | Reconnect(key: Id)
    | Live(op: Spec.Op)
    | Answered(loop: nat, reply: Reply, now: int)
    | Ends(loop: nat)

  ghost function Affected(c: Spec.Core, e: Effect, now: int): Spec.Core {
    match e
    case Quiet => c
    case Replay(ops) => Spec.Run(c, ops)
    case Lose(ref) => Spec.MarkLost(c, ref, now)
  }

  function Opened(protocol: Protocol, key: Id, began: nat, c: Spec.Core): Record {
    Record(key, began, c, OpenRuns(protocol, key, c), [])
  }

  ghost function Next(protocol: Protocol, s: System, e: Event): System {
    match e
    case Reconnect(key) =>
      var w := Call(s.world, key);
      if |w.loops| > |s.world.loops|
      then s.(world := w, passes := s.passes + [Begin(protocol, key, s.store)],
              records := s.records + [Opened(protocol, key, s.world.clock, s.store)])
      else s.(world := w)
    case Live(op) => s.(store := Spec.Step(s.store, op))
    case Answered(i, reply, now) =>
      if i < |s.passes| && i < |s.records| && i < |s.world.loops| && s.passes[i].Waiting?
         && s.passes[i].i < |s.passes[i].open| then
        var l, was := s.world.loops[i], s.passes[i];
        var (p, effect) := Resume(protocol, was, reply, IsCurrent(s.world, l));
        var told := Told(was.i, Asks(was), reply, IsCurrent(s.world, l), effect, s.world.clock);
        s.(passes := s.passes[i := p], records := s.records[i := s.records[i].(told := s.records[i].told + [told])],
           store := Affected(s.store, effect, now),
           verdicts := if effect.Lose? then s.verdicts + [Verdict(effect.ref, l.key, l.began, s.world.clock)]
             else s.verdicts)
      else s
    case Ends(i) =>
      if i < |s.passes| && i < |s.records| && i < |s.world.loops| && s.passes[i].Ended? then
        var l := s.world.loops[i];
        var current := IsCurrent(s.world, l);
        s.(world := PassEnds(s.world, i, s.passes[i].ok), past := s.past + [s.records[i]],
           passes := if current then s.passes[..i] + s.passes[i + 1..]
                     else s.passes[i := Begin(protocol, l.key, s.store)],
           records := if current then s.records[..i] + s.records[i + 1..]
                      else s.records[i := Opened(protocol, l.key, s.world.clock, s.store)])
      else s
  }

  ghost function Run(protocol: Protocol, events: seq<Event>): System {
    if events == [] then System(START, [], [], [], Spec.EMPTY, [])
    else Next(protocol, Run(protocol, events[..|events| - 1]), events[|events| - 1])
  }

  // ---------------------------------------------------------------------
  // What a pass owes its record

  /** The run's history was missing once already. */
  ghost predicate Missed(told: seq<Told>, run: nat) {
    exists j :: 0 <= j < |told| && MissedAt(told[j], run)
  }

  ghost predicate MissedAt(t: Told, run: nat) {
    t.run == run && t.question.HistoryOf? && t.reply.Missing?
  }

  /** The queue as the pass was told it. */
  ghost function QueueTold(told: seq<Told>): Option<set<Id>> {
    if told == [] then None
    else
      var last := told[|told| - 1];
      if last.question.QueueRead? && last.reply.Queue? then Some(last.reply.prompts) else QueueTold(told[..|told| - 1])
  }

  /** Whether an exchange, after the earlier ones, is the last one about its run. */
  ghost predicate Settles(protocol: Protocol, open: seq<ExecutionRef>, before: seq<Told>, t: Told)
    requires t.run < |open|
  {
    var prompt := open[t.run].prompt;
    if protocol.Native? then true
    else if t.question.QueueRead? then t.reply.Queue? && prompt in t.reply.prompts
    else !t.reply.Missing? || Missed(before, t.run) || (QueueTold(before).Some? && prompt in QueueTold(before).value)
  }

  /** What a pass asks first about a run: its job record, or its history. */
  ghost predicate AsksFirst(protocol: Protocol, prompt: Id, question: Question) {
    question == if protocol.Native? then JobOf(prompt) else HistoryOf(prompt)
  }

  /** After a missing history the queue is read, once in a pass, and unless it lists the prompt the history again. */
  ghost predicate AsksOn(prompt: Id, before: seq<Told>, question: Question) {
    match QueueTold(before)
    case None => question == QueueRead
    case Some(prompts) => prompt !in prompts && question == HistoryOf(prompt)
  }

  /** A found record is replayed; a run is lost on a missing job, or on a second missing history. */
  ghost predicate TakesEffect(protocol: Protocol, ref: ExecutionRef, before: seq<Told>, t: Told) {
    if t.question.QueueRead? then t.effect == Quiet
    else if t.reply.Found? then t.effect == Replay(t.reply.replay)
    else if t.reply.Missing? && t.current && (protocol.Native? || Missed(before, t.run)) then t.effect == Lose(ref)
    else t.effect == Quiet
  }

  /**
   * One exchange after the earlier ones: the runs are taken in order, the next one only by a current
   * pass and only once the last one is settled.
   */
  ghost predicate TellLaw(protocol: Protocol, open: seq<ExecutionRef>, before: seq<Told>, t: Told) {
    && t.run < |open|
    && TakesEffect(protocol, open[t.run], before, t)
    && (if before == [] then t.run == 0 && AsksFirst(protocol, open[0].prompt, t.question)
        else
          var last := before[|before| - 1];
          && last.run < |open|
          && (if Settles(protocol, open, before[..|before| - 1], last)
              then last.current && t.run == last.run + 1 && AsksFirst(protocol, open[t.run].prompt, t.question)
              else t.run == last.run && Missed(before, t.run) && (last.question.QueueRead? ==> last.reply.Queue?)
                   && AsksOn(open[t.run].prompt, before, t.question)))
  }

  ghost predicate Lawful(protocol: Protocol, open: seq<ExecutionRef>, told: seq<Told>) {
    forall k :: 0 <= k < |told| ==> TellLaw(protocol, open, told[..k], told[k])
  }

  /** The runs a pass takes: those of its connection that are queued or running, or natively lack their artifacts. */
  ghost predicate TakesOpen(protocol: Protocol, rec: Record) {
    && Distinct(rec.open)
    && forall r :: r in rec.open <==>
         && r in rec.found.entries && r.connection == rec.key
         && var e := rec.found.entries[r];
            e.status == QueuedStatus || e.status == RunningStatus
            || (protocol.Native? && e.status == CompletedStatus && !e.artifactsHydrated)
  }

  /** Where a pass stands after what it was told. */
  ghost predicate StandsAt(protocol: Protocol, p: Pass, open: seq<ExecutionRef>, told: seq<Told>) {
    if told == [] then
      match p
      case Waiting(o, i, phase, queued) =>
        o == open && open != [] && i == 0 && queued.None?
          && phase == (if protocol.Native? then AwaitJob else AwaitHistory)
      case Ended(ok) => ok && open == []
    else
      var before, last := told[..|told| - 1], told[|told| - 1];
      && last.run < |open| && (forall j :: 0 <= j < |told| ==> told[j].run <= last.run)
      && match p
         case Waiting(o, i, phase, queued) =>
           && o == open && i < |open| && queued == QueueTold(told)
           && (if Settles(protocol, open, before, last)
               then last.current && i == last.run + 1 && phase == (if protocol.Native? then AwaitJob else AwaitHistory)
               else
                 && i == last.run && Missed(told, i) && (last.question.QueueRead? ==> last.reply.Queue?)
                 && match queued
                    case None => phase == AwaitQueue
                    case Some(prompts) => phase == AwaitFinal && open[i].prompt !in prompts)
         case Ended(ok) =>
           if ok then Settles(protocol, open, before, last) && (last.run + 1 == |open| || !last.current)
           else last.question.QueueRead? && !last.reply.Queue?
  }

  ghost predicate Keeps(protocol: Protocol, p: Pass, rec: Record) {
    Lawful(protocol, rec.open, rec.told) && TakesOpen(protocol, rec) && StandsAt(protocol, p, rec.open, rec.told)
  }

  lemma OpenedKeeps(protocol: Protocol, key: Id, began: nat, c: Spec.Core)
    requires StoreInvariant.Shape(c)
    ensures Keeps(protocol, Begin(protocol, key, c), Opened(protocol, key, began, c))
  {
    FilterDistinct(c.order, OpenOf(protocol, key, c));
    hide StoreInvariant.GoodEntries;
  }

  lemma QueueMore(told: seq<Told>, t: Told)
    ensures QueueTold(told + [t]) ==
            if t.question.QueueRead? && t.reply.Queue? then Some(t.reply.prompts) else QueueTold(told)
    ensures forall run :: Missed(told + [t], run) <==> Missed(told, run) || MissedAt(t, run)
  {
    assert (told + [t])[..|told|] == told;
    forall run
      ensures Missed(told + [t], run) <==> Missed(told, run) || MissedAt(t, run)
    {
      if Missed(told, run) {
        var j :| 0 <= j < |told| && MissedAt(told[j], run);
        assert MissedAt((told + [t])[j], run);
      }
      if MissedAt(t, run) {
        assert MissedAt((told + [t])[|told|], run);
      }
    }
  }

  lemma ResumeTells(protocol: Protocol, p: Pass, reply: Reply, current: bool, at: nat, open: seq<ExecutionRef>,
                    told: seq<Told>)
    requires p.Waiting? && p.i < |p.open| && StandsAt(protocol, p, open, told)
    ensures TellLaw(protocol, open, told, Told(p.i, Asks(p), reply, current, Resume(protocol, p, reply, current).1, at))
  {
    hide Missed;
    hide Settles;
    hide QueueTold;
    hide Head;
    hide AfterQueue;
    if told == [] {
      NothingMissed(p.i);
    } else {
      FirstTime(protocol, p, open, told);
    }
  }

  lemma NothingMissed(run: nat)
    ensures !Missed([], run)
  {
  }

  /** A pass at the head of the loop has not asked about its run before. */
  lemma FirstTime(protocol: Protocol, p: Pass, open: seq<ExecutionRef>, told: seq<Told>)
    requires p.Waiting? && StandsAt(protocol, p, open, told)
    ensures p.phase.AwaitHistory? || p.phase.AwaitJob? ==> !Missed(told, p.i)
  {
    hide Settles;
    hide QueueTold;
  }

  /** After a found or failed reply, or any native one, a pass is at the head of the loop again, or over. */
  lemma HeadStands(protocol: Protocol, p: Pass, current: bool, open: seq<ExecutionRef>, told: seq<Told>, t: Told,
                   queued: Option<set<Id>>)
    requires p.Waiting? && p.i < |p.open| && StandsAt(protocol, p, open, told) && t.run == p.i && t.current == current
    requires Settles(protocol, open, told, t) && queued == QueueTold(told + [t])
    ensures StandsAt(protocol, Head(protocol, p.open, p.i + 1, queued, current), open, told + [t])
  {
    hide Settles;
    hide QueueTold;
    hide Missed;
    assert (told + [t])[..|told|] == told;
  }

  lemma WaitsOn(protocol: Protocol, p: Pass, open: seq<ExecutionRef>, told: seq<Told>, t: Told, p': Pass)
    requires p.Waiting? && p.i < |p.open| && StandsAt(protocol, p, open, told) && t.run == p.i
    requires !Settles(protocol, open, told, t) && Missed(told + [t], p.i) && (t.question.QueueRead? ==> t.reply.Queue?)
    requires p'.Waiting? && p' == Waiting(p.open, p.i, p'.phase, QueueTold(told + [t]))
    requires if p'.queued.None? then p'.phase == AwaitQueue
             else p'.phase == AwaitFinal && open[p.i].prompt !in p'.queued.value
    ensures StandsAt(protocol, p', open, told + [t])
  {
    hide Settles;
    hide QueueTold;
    hide Missed;
    assert (told + [t])[..|told|] == told;
  }

  lemma StandsWith(protocol: Protocol, p: Pass, open: seq<ExecutionRef>, told: seq<Told>)
    requires p.Waiting? && StandsAt(protocol, p, open, told)
    ensures p.open == open && p.i < |open| && p.queued == QueueTold(told)
    ensures protocol.Native? <==> p.phase.AwaitJob?
    ensures p.phase.AwaitQueue? ==> p.queued.None? && Missed(told, p.i)
    ensures p.phase.AwaitFinal? ==> p.queued.Some? && open[p.i].prompt !in p.queued.value && Missed(told, p.i)
  {
    hide Missed;
  }

  lemma ResumeStands(protocol: Protocol, p: Pass, reply: Reply, current: bool, at: nat, open: seq<ExecutionRef>,
                     told: seq<Told>)
    requires p.Waiting? && p.i < |p.open| && StandsAt(protocol, p, open, told)
    ensures var (p', effect) := Resume(protocol, p, reply, current);
            StandsAt(protocol, p', open, told + [Told(p.i, Asks(p), reply, current, effect, at)])
  {
    hide StandsAt;
    hide Missed;
    hide QueueTold;
    hide Head;
    var (p', effect) := Resume(protocol, p, reply, current);
    var t := Told(p.i, Asks(p), reply, current, effect, at);
    StandsWith(protocol, p, open, told);
    FirstTime(protocol, p, open, told);
    QueueMore(told, t);
    if p.phase.AwaitQueue? && !reply.Queue? {
      QueueFails(protocol, p, open, told, t);
    } else if Settles(protocol, open, told, t) {
      HeadStands(protocol, p, current, open, told, t, QueueTold(told + [t]));
    } else {
      WaitsOn(protocol, p, open, told, t, p');
    }
  }

  lemma QueueFails(protocol: Protocol, p: Pass, open: seq<ExecutionRef>, told: seq<Told>, t: Told)
    requires p.Waiting? && p.i < |p.open| && StandsAt(protocol, p, open, told) && t.run == p.i
    requires t.question.QueueRead? && !t.reply.Queue?
    ensures StandsAt(protocol, Ended(false), open, told + [t])
  {
    hide Settles;
    hide QueueTold;
    hide Missed;
    assert (told + [t])[..|told|] == told;
  }

  lemma LawfulMore(protocol: Protocol, open: seq<ExecutionRef>, told: seq<Told>, t: Told)
    requires Lawful(protocol, open, told) && TellLaw(protocol, open, told, t)
    ensures Lawful(protocol, open, told + [t])
  {
    hide TellLaw;
    forall k | 0 <= k < |told + [t]|
      ensures TellLaw(protocol, open, (told + [t])[..k], (told + [t])[k])
    {
      assert (told + [t])[..k] == told[..k];
      assert told[..|told|] == told;
    }
  }

  // ---------------------------------------------------------------------
  // The invariant

  /** Nothing superseded the pass of a verdict: every call of its key until then was made before the pass began. */
  ghost predicate Fresh(w: World, v: Verdict) {
    && Spec.OnConnection(v.ref, v.key)
    && v.at <= w.clock
    && forall k ::
       0 <= k < |w.answers| && w.answers[k].key == v.key && w.answers[k].at < v.at ==> w.answers[k].at <= v.began
  }

  ghost predicate Over(protocol: Protocol, rec: Record) {
    exists p: Pass :: p.Ended? && Keeps(protocol, p, rec)
  }

  ghost predicate Convicts(rec: Record, v: Verdict, k: nat) {
    && rec.key == v.key && rec.began == v.began
    && k < |rec.told| && rec.told[k].effect == Lose(v.ref) && rec.told[k].at == v.at
  }

  /** The verdict is on the record of a pass. */
  ghost predicate OnRecord(records: seq<Record>, past: seq<Record>, v: Verdict) {
    exists rec, k: nat :: (rec in records || rec in past) && Convicts(rec, v, k)
  }

  ghost predicate PassesGood(protocol: Protocol, s: System) {
    && |s.passes| == |s.world.loops| && |s.records| == |s.world.loops|
    && (forall i :: 0 <= i < |s.passes| ==>
          && Keeps(protocol, s.passes[i], s.records[i])
          && s.records[i].key == s.world.loops[i].key && s.records[i].began == s.world.loops[i].began)
    && (forall rec :: rec in s.past ==> Over(protocol, rec))
  }

  ghost predicate VerdictsGood(s: System) {
    forall v :: v in s.verdicts ==> Fresh(s.world, v) && OnRecord(s.records, s.past, v)
  }

  ghost predicate SystemInv(protocol: Protocol, s: System) {
    ReconcileTrack.Inv(s.world) && StoreInvariant.Inv(s.store) && PassesGood(protocol, s) && VerdictsGood(s)
  }

  lemma StepKeepsInv(c: Spec.Core, op: Spec.Op)
    requires StoreInvariant.Inv(c)
    ensures StoreInvariant.Inv(Spec.Step(c, op))
  {
    hide *;
    StoreInvariant.RunInvariant(c, [op]);
    OneStep(c, op);
  }

  lemma OneStep(c: Spec.Core, op: Spec.Op)
    ensures Spec.Run(c, [op]) == Spec.Step(c, op)
  {
    assert [op][..0] == [];
    hide Spec.Step;
  }

  lemma AffectedInv(c: Spec.Core, e: Effect, now: int)
    requires StoreInvariant.Inv(c)
    ensures StoreInvariant.Inv(Affected(c, e, now))
  {
    hide StoreInvariant.Inv;
    hide Spec.Run;
    hide Spec.MarkLost;
    match e
    case Quiet =>
    case Replay(ops) =>
      StoreInvariant.RunInvariant(c, ops);
    case Lose(ref) =>
      StepKeepsInv(c, Spec.MarkLostOp(ref, now));
  }

  /** A verdict passed now by a current pass is fresh. */
  lemma VerdictFresh(w: World, i: nat, ref: ExecutionRef)
    requires ReconcileTrack.Inv(w) && i < |w.loops| && IsCurrent(w, w.loops[i])
             && Spec.OnConnection(ref, w.loops[i].key)
    ensures Fresh(w, Verdict(ref, w.loops[i].key, w.loops[i].began, w.clock))
  {
    hide ReconcileTrack.LoopsGood;
    hide ReconcileTrack.AnswersGood;
    hide ReconcileTrack.Counted;
  }

  lemma StaysFresh(w: World, s: Step, v: Verdict)
    requires Fresh(w, v)
    ensures Fresh(ReconcileTrack.Next(w, s), v)
  {
  }

  /** Records that only grow keep every verdict on record. */
  lemma StaysOnRecord(records: seq<Record>, past: seq<Record>, records': seq<Record>, past': seq<Record>, v: Verdict)
    requires OnRecord(records, past, v)
    requires forall rec :: rec in past ==> rec in past'
    requires forall rec :: rec in records ==>
               rec in past' || exists more: Record :: more in records' && Extends(rec, more)
    ensures OnRecord(records', past', v)
  {
    var rec, k: nat :| (rec in records || rec in past) && Convicts(rec, v, k);
    if rec in past' {
      assert Convicts(rec, v, k);
    } else {
      var more: Record :| more in records' && Extends(rec, more);
      assert Convicts(more, v, k);
    }
  }

  ghost predicate Extends(rec: Record, more: Record) {
    more.key == rec.key && more.began == rec.began && rec.told <= more.told
  }

  lemma ReconnectInv(protocol: Protocol, s: System, key: Id)
    requires SystemInv(protocol, s)
    ensures SystemInv(protocol, Next(protocol, s, Reconnect(key)))
  {
    hide ReconcileTrack.Inv;
    hide StoreInvariant.Inv;
    hide Begin;
    hide Opened;
    hide Keeps;
    hide Fresh;
    hide OnRecord;
    hide Over;
    var s' := Next(protocol, s, Reconnect(key));
    ReconcileTrack.StepInv(s.world, CallStep(key));
    StoreShape(s.store);
    OpenedKeeps(protocol, key, s.world.clock, s.store);
    OpenedFor(protocol, key, s.world.clock, s.store);
    forall v | v in s.verdicts
      ensures Fresh(s'.world, v) && OnRecord(s'.records, s'.past, v)
    {
      StaysFresh(s.world, CallStep(key), v);
      assert forall rec :: rec in s.records ==> rec in s'.records && Extends(rec, rec);
      StaysOnRecord(s.records, s.past, s'.records, s'.past, v);
    }
  }

  lemma StoreShape(c: Spec.Core)
    requires StoreInvariant.Inv(c)
    ensures StoreInvariant.Shape(c)
  {
  }

  lemma OpenedFor(protocol: Protocol, key: Id, began: nat, c: Spec.Core)
    ensures Opened(protocol, key, began, c).key == key && Opened(protocol, key, began, c).began == began
    ensures Opened(protocol, key, began, c).found == c && Opened(protocol, key, began, c).told == []
  {
  }

  /** A pass only loses runs of its own connection, and only while current. */
  lemma LosesOwn(protocol: Protocol, rec: Record, t: Told)
    requires TakesOpen(protocol, rec) && TellLaw(protocol, rec.open, rec.told, t) && t.effect.Lose?
    ensures t.current && t.effect.ref == rec.open[t.run] && Spec.OnConnection(t.effect.ref, rec.key)
  {
    assert rec.open[t.run] in rec.open;
  }

  lemma PassStands(protocol: Protocol, p: Pass, rec: Record)
    requires Keeps(protocol, p, rec)
    ensures StandsAt(protocol, p, rec.open, rec.told) && Lawful(protocol, rec.open, rec.told)
            && TakesOpen(protocol, rec)
    ensures p.Waiting? ==> p.i < |p.open| && p.open == rec.open
  {
  }

  lemma KeepsMore(protocol: Protocol, p: Pass, rec: Record, t: Told)
    requires TakesOpen(protocol, rec) && Lawful(protocol, rec.open, rec.told)
             && TellLaw(protocol, rec.open, rec.told, t)
    requires StandsAt(protocol, p, rec.open, rec.told + [t])
    ensures Keeps(protocol, p, rec.(told := rec.told + [t]))
  {
    LawfulMore(protocol, rec.open, rec.told, t);
    hide TellLaw;
    hide StandsAt;
  }

  /** The system after an answer. */
  lemma AnsweredIs(protocol: Protocol, s: System, i: nat, reply: Reply, now: int)
    requires PassesGood(protocol, s) && i < |s.passes| && s.passes[i].Waiting?
    ensures s.passes[i].i < |s.passes[i].open|
    ensures var l, was := s.world.loops[i], s.passes[i];
            var (p, effect) := Resume(protocol, was, reply, IsCurrent(s.world, l));
            var t := Told(was.i, Asks(was), reply, IsCurrent(s.world, l), effect, s.world.clock);
            var rec := s.records[i];
            && TellLaw(protocol, rec.open, rec.told, t)
            && Keeps(protocol, p, rec.(told := rec.told + [t]))
            && (effect.Lose? ==> IsCurrent(s.world, l) && Spec.OnConnection(effect.ref, l.key))
            && Next(protocol, s, Answered(i, reply, now)) ==
               s.(passes := s.passes[i := p], records := s.records[i := rec.(told := rec.told + [t])],
                  store := Affected(s.store, effect, now),
                  verdicts := if effect.Lose? then s.verdicts + [Verdict(effect.ref, l.key, l.began, s.world.clock)]
                    else s.verdicts)
  {
    hide Keeps;
    hide TellLaw;
    hide StandsAt;
    hide TakesOpen;
    hide Lawful;
    hide Resume;
    hide Over;
    var l, was, rec := s.world.loops[i], s.passes[i], s.records[i];
    PassStands(protocol, was, rec);
    var (p, effect) := Resume(protocol, was, reply, IsCurrent(s.world, l));
    var t := Told(was.i, Asks(was), reply, IsCurrent(s.world, l), effect, s.world.clock);
    ResumeTells(protocol, was, reply, IsCurrent(s.world, l), s.world.clock, rec.open, rec.told);
    ResumeStands(protocol, was, reply, IsCurrent(s.world, l), s.world.clock, rec.open, rec.told);
    KeepsMore(protocol, p, rec, t);
    if effect.Lose? {
      LosesOwn(protocol, rec, t);
    }
  }

  lemma AnsweredInv(protocol: Protocol, s: System, i: nat, reply: Reply, now: int)
    requires SystemInv(protocol, s) && i < |s.passes| && s.passes[i].Waiting?
    ensures SystemInv(protocol, Next(protocol, s, Answered(i, reply, now)))
  {
    hide ReconcileTrack.Inv;
    hide StoreInvariant.Inv;
    hide Resume;
    hide Affected;
    hide Fresh;
    hide IsCurrent;
    hide Keeps;
    hide TellLaw;
    hide OnRecord;
    hide Over;
    hide Next;
    AnsweredIs(protocol, s, i, reply, now);
    var s' := Next(protocol, s, Answered(i, reply, now));
    var l, was := s.world.loops[i], s.passes[i];
    var (p, effect) := Resume(protocol, was, reply, IsCurrent(s.world, l));
    AffectedInv(s.store, effect, now);
    RecordGrows(s.records, i, s'.records[i]);
    forall v | v in s'.verdicts
      ensures Fresh(s'.world, v) && OnRecord(s'.records, s'.past, v)
    {
      if v in s.verdicts {
        StaysOnRecord(s.records, s.past, s'.records, s'.past, v);
      } else {
        VerdictFresh(s.world, i, effect.ref);
        LastConvicts(s'.records, s'.past, i, v);
      }
    }
  }

  lemma RecordGrows(records: seq<Record>, i: nat, more: Record)
    requires i < |records| && Extends(records[i], more)
    ensures forall rec :: rec in records ==> exists m: Record :: m in records[i := more] && Extends(rec, m)
  {
    forall rec | rec in records
      ensures exists m: Record :: m in records[i := more] && Extends(rec, m)
    {
      var j :| 0 <= j < |records| && records[j] == rec;
      var m := records[i := more][j];
      assert m in records[i := more] && Extends(rec, m);
    }
  }

  lemma LastConvicts(records: seq<Record>, past: seq<Record>, i: nat, v: Verdict)
    requires i < |records| && records[i].told != []
    requires Convicts(records[i], v, |records[i].told| - 1)
    ensures OnRecord(records, past, v)
  {
    assert records[i] in records;
  }

  /** Passes and their records stay side by side when one of them ends. */
  lemma EndsGood(protocol: Protocol, s: System, i: nat)
    requires PassesGood(protocol, s) && StoreInvariant.Shape(s.store) && i < |s.passes| && s.passes[i].Ended?
    ensures PassesGood(protocol, Next(protocol, s, Ends(i)))
  {
    hide StoreInvariant.Shape;
    hide Keeps;
    hide Begin;
    hide Opened;
    hide IsCurrent;
    hide Over;
    hide PassEnds;
    var l := s.world.loops[i];
    OpenedKeeps(protocol, l.key, s.world.clock, s.store);
    OpenedFor(protocol, l.key, s.world.clock, s.store);
    EndsLoops(s.world, i, s.passes[i].ok);
    ItIsOver(protocol, s.passes[i], s.records[i]);
  }

  lemma EndsInv(protocol: Protocol, s: System, i: nat)
    requires SystemInv(protocol, s) && i < |s.passes| && s.passes[i].Ended?
    ensures SystemInv(protocol, Next(protocol, s, Ends(i)))
  {
    hide ReconcileTrack.Inv;
    hide StoreInvariant.Inv;
    hide PassesGood;
    hide Fresh;
    hide OnRecord;
    hide PassEnds;
    hide Begin;
    hide Opened;
    hide IsCurrent;
    var s' := Next(protocol, s, Ends(i));
    StoreShape(s.store);
    InvParts(protocol, s);
    EndsGood(protocol, s, i);
    EndsLoops(s.world, i, s.passes[i].ok);
    ReconcileTrack.StepInv(s.world, EndStep(i, s.passes[i].ok));
    Archived(s.records, s.past, i, s'.records);
    forall v | v in s.verdicts
      ensures Fresh(s'.world, v) && OnRecord(s'.records, s'.past, v)
    {
      StaysFresh(s.world, EndStep(i, s.passes[i].ok), v);
      StaysOnRecord(s.records, s.past, s'.records, s'.past, v);
    }
  }

  lemma ItIsOver(protocol: Protocol, p: Pass, rec: Record)
    requires p.Ended? && Keeps(protocol, p, rec)
    ensures Over(protocol, rec)
  {
    hide Keeps;
  }

  lemma EndsLoops(w: World, i: nat, ok: bool)
    requires i < |w.loops|
    ensures var w' := PassEnds(w, i, ok);
            if IsCurrent(w, w.loops[i]) then w'.loops == w.loops[..i] + w.loops[i + 1..]
            else
              && w'.loops == w.loops[i := w'.loops[i]] && w'.loops[i].key == w.loops[i].key
              && w'.loops[i].began == w.clock
    ensures ReconcileTrack.Next(w, EndStep(i, ok)) == PassEnds(w, i, ok)
  {
  }

  /** The record of the pass that ended is in the past, and every other one is where it was or one place lower. */
  lemma Archived(records: seq<Record>, past: seq<Record>, i: nat, records': seq<Record>)
    requires i < |records|
    requires records' == records[..i] + records[i + 1..]
             || (|records'| == |records| && forall j :: 0 <= j < |records| && j != i ==> records'[j] == records[j])
    ensures forall rec :: rec in records ==>
              rec in past + [records[i]] || exists more: Record :: more in records' && Extends(rec, more)
  {
    forall rec | rec in records && rec != records[i]
      ensures exists more: Record :: more in records' && Extends(rec, more)
    {
      var j :| 0 <= j < |records| && records[j] == rec;
      if |records'| == |records| {
        assert records'[j] == rec;
      } else {
        assert records'[if j < i then j else j - 1] == rec;
      }
      assert rec in records' && Extends(rec, rec);
    }
  }

  lemma EventInv(protocol: Protocol, s: System, e: Event)
    requires SystemInv(protocol, s)
    ensures SystemInv(protocol, Next(protocol, s, e))
  {
    hide ReconcileTrack.Inv;
    hide StoreInvariant.Inv;
    hide PassesGood;
    hide VerdictsGood;
    match e
    case Reconnect(key) => ReconnectInv(protocol, s, key);
    case Live(op) => LiveInv(protocol, s, op);
    case Answered(i, reply, now) =>
      if i < |s.passes| && s.passes[i].Waiting? {
        AnsweredInv(protocol, s, i, reply, now);
      }
    case Ends(i) =>
      if i < |s.passes| && s.passes[i].Ended? {
        EndsInv(protocol, s, i);
      }
  }

  lemma LiveInv(protocol: Protocol, s: System, op: Spec.Op)
    requires SystemInv(protocol, s)
    ensures SystemInv(protocol, Next(protocol, s, Live(op)))
  {
    hide StoreInvariant.Inv;
    hide ReconcileTrack.Inv;
    hide Spec.Step;
    hide Keeps;
    hide Over;
    hide OnRecord;
    hide Fresh;
    StepKeepsInv(s.store, op);
  }

  /**
   * The store's invariant and every pass's record survive every interleaving of reconnects, live
   * events and replies.
   */
  lemma {:induction false} RunInv(protocol: Protocol, events: seq<Event>)
    ensures SystemInv(protocol, Run(protocol, events))
  {
    if events == [] {
      ReconcileTrack.RunInv([]);
      StoreInvariant.EmptyInvariant();
      hide ReconcileTrack.Inv;
      hide StoreInvariant.Inv;
    } else {
      RunInv(protocol, events[..|events| - 1]);
      hide SystemInv;
      hide Next;
      EventInv(protocol, Run(protocol, events[..|events| - 1]), events[|events| - 1]);
    }
  }

  // ---------------------------------------------------------------------
  // Verdicts

  /**
   * No pass commits a loss verdict once superseded, or for another connection's run: every call
   * of its key made before the verdict was made before the pass began.
   */
  lemma VerdictsAreCurrent(protocol: Protocol, events: seq<Event>, v: Verdict)
    requires v in Run(protocol, events).verdicts
    ensures v.ref.connection == v.key
    ensures var answers := Run(protocol, events).world.answers;
            forall k ::
              0 <= k < |answers| && answers[k].key == v.key && answers[k].at < v.at ==> answers[k].at <= v.began
  {
    RunInv(protocol, events);
    hide Run;
    hide ReconcileTrack.Inv;
    hide StoreInvariant.Inv;
    hide PassesGood;
    assert Fresh(Run(protocol, events).world, v);
  }

  ghost predicate IsRecord(s: System, rec: Record) {
    rec in s.records || rec in s.past
  }

  lemma RecordsLawful(protocol: Protocol, events: seq<Event>, rec: Record)
    requires IsRecord(Run(protocol, events), rec)
    ensures Lawful(protocol, rec.open, rec.told) && TakesOpen(protocol, rec)
  {
    RunInv(protocol, events);
    var s := Run(protocol, events);
    hide Run;
    hide ReconcileTrack.Inv;
    hide StoreInvariant.Inv;
    hide VerdictsGood;
    hide StandsAt;
    if rec in s.records {
      var i :| 0 <= i < |s.records| && s.records[i] == rec;
      assert Keeps(protocol, s.passes[i], rec);
    } else {
      assert Over(protocol, rec);
    }
    hide Lawful;
    hide TakesOpen;
  }

  ghost predicate MissingAt(told: seq<Told>, j: int, ref: ExecutionRef, run: nat, question: Question) {
    0 <= j < |told| && told[j].run == run && told[j].question == question && told[j].reply.Missing?
  }

  ghost predicate UnlistedAt(told: seq<Told>, q: int, prompt: Id) {
    0 <= q < |told| && told[q].question.QueueRead? && told[q].reply.Queue? && prompt !in told[q].reply.prompts
  }

  /** What a verdict rests on, by the record of the pass that passed it as its `k`-th exchange. */
  ghost predicate Founded(protocol: Protocol, rec: Record, k: nat) {
    && k < |rec.told| && rec.told[k].run < |rec.open|
    && var run, told := rec.told[k].run, rec.told;
    var ref := rec.open[run];
    && told[k].current
    && if protocol.Native? then MissingAt(told, k, ref, run, JobOf(ref.prompt))
       else
         && MissingAt(told, k, ref, run, HistoryOf(ref.prompt))
         && exists j, q :: j < k && q < k && MissingAt(told, j, ref, run, HistoryOf(ref.prompt))
                           && UnlistedAt(told, q, ref.prompt)
  }

  lemma {:induction false} QueueToldAt(told: seq<Told>) returns (q: int)
    requires QueueTold(told).Some?
    ensures 0 <= q < |told| && told[q].question.QueueRead? && told[q].reply.Queue?
            && told[q].reply.prompts == QueueTold(told).value
  {
    q := |told| - 1;
    if !(told[q].question.QueueRead? && told[q].reply.Queue?) {
      q := QueueToldAt(told[..|told| - 1]);
    }
  }

  /** The question of an exchange is about its run. */
  lemma AsksItsRun(protocol: Protocol, open: seq<ExecutionRef>, before: seq<Told>, t: Told)
    requires TellLaw(protocol, open, before, t) && !t.question.QueueRead?
    ensures t.question == if protocol.Native? then JobOf(open[t.run].prompt) else HistoryOf(open[t.run].prompt)
  {
    hide Missed;
    hide QueueTold;
    hide TakesEffect;
  }

  lemma MissedIs(protocol: Protocol, open: seq<ExecutionRef>, told: seq<Told>, k: nat, run: nat) returns (j: int)
    requires Lawful(protocol, open, told) && k <= |told| && run < |open| && Missed(told[..k], run)
    ensures j < k && MissingAt(told, j, open[run], run, HistoryOf(open[run].prompt))
  {
    j :| 0 <= j < k && MissedAt(told[..k][j], run);
    assert TellLaw(protocol, open, told[..j], told[j]);
    AsksItsRun(protocol, open, told[..j], told[j]);
    hide TellLaw;
  }

  /** A history asked for again is one the queue as told does not list. */
  lemma SecondHistory(protocol: Protocol, open: seq<ExecutionRef>, before: seq<Told>, t: Told)
    requires protocol.History? && TellLaw(protocol, open, before, t) && t.question.HistoryOf? && Missed(before, t.run)
    requires forall j :: 0 <= j < |before| ==> before[j].run <= before[|before| - 1].run
    ensures QueueTold(before).Some? && open[t.run].prompt !in QueueTold(before).value
  {
    if before != [] {
      var j :| 0 <= j < |before| && MissedAt(before[j], t.run);
    }
  }

  lemma {:induction false} RunsInOrder(protocol: Protocol, open: seq<ExecutionRef>, told: seq<Told>, j: nat, k: nat)
    requires Lawful(protocol, open, told) && j <= k < |told|
    ensures told[j].run <= told[k].run
  {
    hide TellLaw;
    hide Lawful;
    hide Settles;
    if j < k {
      RunsInOrder(protocol, open, told, j, k - 1);
      LawAt(protocol, open, told, k);
      NextRun(protocol, open, told[..k], told[k]);
    }
  }

  lemma NextRun(protocol: Protocol, open: seq<ExecutionRef>, before: seq<Told>, t: Told)
    requires TellLaw(protocol, open, before, t)
    ensures t.run < |open| && (before == [] ==> t.run == 0)
    ensures before != [] ==> t.run == before[|before| - 1].run || t.run == before[|before| - 1].run + 1
    ensures before != [] && t.run != before[|before| - 1].run ==>
              before[|before| - 1].current && before[|before| - 1].run < |open|
              && Settles(protocol, open, before[..|before| - 1], before[|before| - 1])
  {
    hide Settles;
    hide Missed;
    hide TakesEffect;
  }

  lemma LossFounded(protocol: Protocol, rec: Record, k: nat)
    requires Lawful(protocol, rec.open, rec.told) && k < |rec.told| && rec.told[k].effect.Lose?
    ensures Founded(protocol, rec, k) && rec.told[k].effect.ref == rec.open[rec.told[k].run]
  {
    hide Settles;
    hide QueueTold;
    hide Missed;
    hide AsksOn;
    hide Lawful;
    var told, open := rec.told, rec.open;
    var before, t := told[..k], told[k];
    LawAt(protocol, open, told, k);
    AsksItsRun(protocol, open, before, t);
    LossIs(protocol, open, before, t);
    hide TellLaw;
    if protocol.History? {
      var j := MissedIs(protocol, open, told, k, t.run);
      forall i | 0 <= i < |before|
        ensures before[i].run <= before[|before| - 1].run
      {
        RunsInOrder(protocol, open, told, i, k - 1);
      }
      SecondHistory(protocol, open, before, t);
      var q := QueueToldAt(before);
      assert UnlistedAt(told, q, open[t.run].prompt) && q < k;
    }
  }

  lemma LawAt(protocol: Protocol, open: seq<ExecutionRef>, told: seq<Told>, k: nat)
    requires Lawful(protocol, open, told) && k < |told|
    ensures TellLaw(protocol, open, told[..k], told[k]) && told[k].run < |open|
  {
    assert TellLaw(protocol, open, told[..k], told[k]);
  }

  lemma LossIs(protocol: Protocol, open: seq<ExecutionRef>, before: seq<Told>, t: Told)
    requires TellLaw(protocol, open, before, t)
    ensures t.effect.Lose? <==>
              !t.question.QueueRead? && t.reply.Missing? && t.current && (protocol.Native? || Missed(before, t.run))
    ensures t.effect.Lose? ==> t.effect.ref == open[t.run]
  {
    hide Missed;
    hide Settles;
    hide AsksOn;
  }

  lemma FoundedLoses(protocol: Protocol, rec: Record, k: nat)
    requires Lawful(protocol, rec.open, rec.told) && Founded(protocol, rec, k)
    ensures rec.told[k].effect == Lose(rec.open[rec.told[k].run])
  {
    hide Settles;
    hide QueueTold;
    hide TellLaw;
    hide Lawful;
    var told, open := rec.told, rec.open;
    var t := told[k];
    LawAt(protocol, open, told, k);
    LossIs(protocol, open, told[..k], t);
    if protocol.History? {
      var j, q :| j < k && q < k && MissingAt(told, j, open[t.run], t.run, HistoryOf(open[t.run].prompt))
        && UnlistedAt(told, q, open[t.run].prompt);
      assert MissedAt(told[..k][j], t.run);
    }
  }

  /**
   * An execution is lost exactly by an exchange whose replies say so, while its pass is current: natively
   * one missing job record; otherwise a missing history, a queue without the prompt, and a second
   * missing history, all told to that very pass.
   */
  lemma LostExactly(protocol: Protocol, events: seq<Event>, rec: Record, k: nat)
    requires IsRecord(Run(protocol, events), rec) && k < |rec.told|
    ensures rec.told[k].effect.Lose? <==> Founded(protocol, rec, k)
    ensures rec.told[k].effect.Lose? ==> rec.told[k].effect.ref == rec.open[rec.told[k].run]
  {
    hide *;
    RecordsLawful(protocol, events, rec);
    if rec.told[k].effect.Lose? {
      LossFounded(protocol, rec, k);
    }
    if Founded(protocol, rec, k) {
      FoundedLoses(protocol, rec, k);
    }
  }

  /** Every verdict is one of those exchanges, on the record of the pass that passed it. */
  lemma VerdictFounded(protocol: Protocol, events: seq<Event>, v: Verdict) returns (rec: Record, k: nat)
    requires v in Run(protocol, events).verdicts
    ensures IsRecord(Run(protocol, events), rec) && rec.key == v.key && rec.began == v.began
    ensures Founded(protocol, rec, k) && rec.open[rec.told[k].run] == v.ref && rec.told[k].at == v.at
  {
    hide Founded;
    hide Run;
    rec, k := VerdictRecord(protocol, events, v);
    LostExactly(protocol, events, rec, k);
    FoundedInside(protocol, rec, k);
  }

  lemma FoundedInside(protocol: Protocol, rec: Record, k: nat)
    requires Founded(protocol, rec, k)
    ensures k < |rec.told| && rec.told[k].run < |rec.open|
  {
  }

  lemma VerdictRecord(protocol: Protocol, events: seq<Event>, v: Verdict) returns (rec: Record, k: nat)
    requires v in Run(protocol, events).verdicts
    ensures IsRecord(Run(protocol, events), rec) && Convicts(rec, v, k)
  {
    hide Run;
    hide ReconcileTrack.Inv;
    hide StoreInvariant.Inv;
    hide PassesGood;
    hide Convicts;
    RunInv(protocol, events);
    var s := Run(protocol, events);
    assert OnRecord(s.records, s.past, v);
    rec, k :| (rec in s.records || rec in s.past) && Convicts(rec, v, k);
  }

  // ---------------------------------------------------------------------
  // What a pass asks about

  /** A pass takes up exactly the runs that were open on its connection when it began. */
  lemma TakesWhatIsOpen(protocol: Protocol, events: seq<Event>, rec: Record, r: ExecutionRef)
    requires IsRecord(Run(protocol, events), rec)
    ensures r in rec.open <==>
            && r in rec.found.entries && r.connection == rec.key
            && var e := rec.found.entries[r];
               e.status == QueuedStatus || e.status == RunningStatus
               || (protocol.Native? && e.status == CompletedStatus && !e.artifactsHydrated)
  {
    hide *;
    RecordsLawful(protocol, events, rec);
    TakesIt(protocol, rec, r);
  }

  lemma TakesIt(protocol: Protocol, rec: Record, r: ExecutionRef)
    requires TakesOpen(protocol, rec)
    ensures r in rec.open <==>
            && r in rec.found.entries && r.connection == rec.key
            && var e := rec.found.entries[r];
               e.status == QueuedStatus || e.status == RunningStatus
               || (protocol.Native? && e.status == CompletedStatus && !e.artifactsHydrated)
  {
  }

  /** The exchange after which a pass is done with a run, and what is known then. */
  ghost predicate Answers(protocol: Protocol, rec: Record, run: nat, k: nat) {
    && k < |rec.told| && run < |rec.open| && rec.told[k].run == run
    && Settles(protocol, rec.open, rec.told[..k], rec.told[k])
  }

  lemma {:induction false} RunsCovered(protocol: Protocol, rec: Record, n: nat, run: nat) returns (k: nat)
    requires Lawful(protocol, rec.open, rec.told) && n < |rec.told| && run < rec.told[n].run
    ensures k < n && Answers(protocol, rec, run, k)
  {
    hide Settles;
    hide TellLaw;
    hide Lawful;
    LawAt(protocol, rec.open, rec.told, n);
    NextRun(protocol, rec.open, rec.told[..n], rec.told[n]);
    var last := rec.told[..n][n - 1];
    assert last == rec.told[n - 1];
    if run < last.run {
      k := RunsCovered(protocol, rec, n - 1, run);
    } else {
      k := n - 1;
      assert rec.told[..n][..n - 1] == rec.told[..k];
    }
  }

  /**
   * A pass that ended without being superseded or failing to read the queue is done with every run it
   * took up: each was answered for by a found or failed reply, by the queue listing it, or by a loss.
   */
  lemma EveryRunAnswered(protocol: Protocol, events: seq<Event>, rec: Record, run: nat) returns (k: nat)
    requires rec in Run(protocol, events).past && run < |rec.open|
    requires forall j :: 0 <= j < |rec.told| ==>
               rec.told[j].current && (rec.told[j].question.QueueRead? ==> rec.told[j].reply.Queue?)
    ensures Answers(protocol, rec, run, k)
    ensures rec.told[k].reply.Missing? ==>
              rec.told[k].effect == Lose(rec.open[run])
              || (QueueTold(rec.told[..k]).Some? && rec.open[run].prompt in QueueTold(rec.told[..k]).value)
  {
    hide *;
    var p := PastEnded(protocol, events, rec);
    EndsDone(protocol, p, rec);
    PassStands(protocol, p, rec);
    if run < rec.told[|rec.told| - 1].run {
      k := RunsCovered(protocol, rec, |rec.told| - 1, run);
    } else {
      k := |rec.told| - 1;
      LastAnswers(protocol, p, rec);
    }
    AnsweredHow(protocol, rec, run, k);
  }

  lemma PastEnded(protocol: Protocol, events: seq<Event>, rec: Record) returns (p: Pass)
    requires rec in Run(protocol, events).past
    ensures p.Ended? && Keeps(protocol, p, rec)
  {
    hide Run;
    hide Keeps;
    hide ReconcileTrack.Inv;
    hide StoreInvariant.Inv;
    hide VerdictsGood;
    RunInv(protocol, events);
    assert Over(protocol, rec);
    p :| p.Ended? && Keeps(protocol, p, rec);
  }

  lemma EndsDone(protocol: Protocol, p: Pass, rec: Record)
    requires p.Ended? && Keeps(protocol, p, rec) && rec.open != []
    requires forall j :: 0 <= j < |rec.told| ==>
               rec.told[j].current && (rec.told[j].question.QueueRead? ==> rec.told[j].reply.Queue?)
    ensures rec.told != [] && rec.told[|rec.told| - 1].run + 1 == |rec.open| && p.ok
  {
    hide Settles;
    hide Lawful;
  }

  lemma LastAnswers(protocol: Protocol, p: Pass, rec: Record)
    requires p.Ended? && p.ok && Keeps(protocol, p, rec) && rec.told != []
    ensures Answers(protocol, rec, rec.told[|rec.told| - 1].run, |rec.told| - 1)
  {
    hide Settles;
    hide Lawful;
  }

  lemma AnsweredHow(protocol: Protocol, rec: Record, run: nat, k: nat)
    requires Lawful(protocol, rec.open, rec.told) && Answers(protocol, rec, run, k) && rec.told[k].current
    ensures rec.told[k].reply.Missing? ==>
              rec.told[k].effect == Lose(rec.open[run])
              || (QueueTold(rec.told[..k]).Some? && rec.open[run].prompt in QueueTold(rec.told[..k]).value)
  {
    hide QueueTold;
    hide Missed;
    hide TellLaw;
    hide Lawful;
    LawAt(protocol, rec.open, rec.told, k);
    LossIs(protocol, rec.open, rec.told[..k], rec.told[k]);
    if protocol.Native? {
      NativeAsksJobs(protocol, rec.open, rec.told[..k], rec.told[k]);
    }
  }

  lemma NativeAsksJobs(protocol: Protocol, open: seq<ExecutionRef>, before: seq<Told>, t: Told)
    requires TellLaw(protocol, open, before, t) && protocol.Native?
    ensures t.question == JobOf(open[t.run].prompt)
  {
    hide Missed;
    hide QueueTold;
    hide TakesEffect;
  }

  // ---------------------------------------------------------------------
  // What a reply does to the store

  /**
   * A found record is replayed into the store as it is then, a founded loss marks the run lost, and no other
   * reply touches the store; the exchange goes on record with the request the pass was waiting for.
   */
  lemma ReplyTakesEffect(protocol: Protocol, events: seq<Event>, i: nat, reply: Reply, now: int)
    requires var s := Run(protocol, events); i < |s.passes| && s.passes[i].Waiting?
    ensures var s := Run(protocol, events);
            var s' := Next(protocol, s, Answered(i, reply, now));
            && i < |s.records| && |s'.records| == |s.records|
            && var rec, told := s'.records[i], s'.records[i].told;
            && told != [] && rec == s.records[i].(told := told)
            && var k := |told| - 1;
            && told[..k] == s.records[i].told && told[k].reply == reply
               && told[k].current == IsCurrent(s.world, s.world.loops[i])
            && told[k].run < |rec.open|
            && if !told[k].question.QueueRead? && reply.Found? then s'.store == Spec.Run(s.store, reply.replay)
               else if Founded(protocol, rec, k) then s'.store == Spec.MarkLost(s.store, rec.open[told[k].run], now)
               else s'.store == s.store
  {
    hide *;
    var s := Run(protocol, events);
    RunInv(protocol, events);
    InvParts(protocol, s);
    AnsweredIs(protocol, s, i, reply, now);
    var s' := Next(protocol, s, Answered(i, reply, now));
    var rec := s'.records[i];
    var k := |rec.told| - 1;
    assert rec.told[..k] == s.records[i].told;
    PassStands(protocol, s'.passes[i], rec);
    if rec.told[k].effect.Lose? {
      LossFounded(protocol, rec, k);
    }
    if Founded(protocol, rec, k) {
      FoundedLoses(protocol, rec, k);
    }
    EffectIs(protocol, rec.open, rec.told[..k], rec.told[k]);
    Affects(s.store, rec.told[k].effect, now);
  }

  lemma InvParts(protocol: Protocol, s: System)
    requires SystemInv(protocol, s)
    ensures PassesGood(protocol, s) && |s.records| == |s.passes| == |s.world.loops|
  {
    hide ReconcileTrack.Inv;
    hide StoreInvariant.Inv;
  }

  lemma EffectIs(protocol: Protocol, open: seq<ExecutionRef>, before: seq<Told>, t: Told)
    requires TellLaw(protocol, open, before, t)
    ensures t.run < |open|
    ensures if !t.question.QueueRead? && t.reply.Found? then t.effect == Replay(t.reply.replay)
            else t.effect == Lose(open[t.run]) || t.effect == Quiet
  {
    hide Missed;
    hide Settles;
    hide AsksOn;
  }

  lemma Affects(c: Spec.Core, e: Effect, now: int)
    ensures e.Quiet? ==> Affected(c, e, now) == c
    ensures e.Replay? ==> Affected(c, e, now) == Spec.Run(c, e.ops)
    ensures e.Lose? ==> Affected(c, e, now) == Spec.MarkLost(c, e.ref, now)
  {
    hide Spec.Run;
    hide Spec.MarkLost;
  }
}
