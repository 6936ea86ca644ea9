/** What the execution store holds, and what each of its operations makes of it. */
module StoreCore {
  import opened Identity
  import opened Ordered
  import opened SnapshotMerge
  import opened ExecutionStates

  const EXECUTION_ENTRY_CAP: nat := 200
  const TERMINAL_PREVIEW_BYTE_BUDGET: nat := 64 * 1024 * 1024

  /** `order` and `tombs` list the keys in insertion order. */
  datatype Core = Core(
    entries: map<ExecutionRef, ExecutionState>,
    order: seq<ExecutionRef>,
    lost: set<ExecutionRef>,
    retained: map<ExecutionRef, nat>,
    tombs: seq<ExecutionRef>,
    unconfirmed: set<ExecutionRef>,
    queueRemaining: map<Id, nat>)

  const EMPTY: Core := Core(map[], [], {}, map[], [], {}, map[])

  predicate OnConnection(r: ExecutionRef, connection: Id) {
    r.connection == connection
  }

  function Of(connection: Id): ExecutionRef -> bool {
    (r: ExecutionRef) => OnConnection(r, connection)
  }

  /** Terminal by an observed event or a proven result, not by a reconcile guess. */
  predicate Authoritative(c: Core, r: ExecutionRef) {
    r in c.entries && IsTerminalStatus(c.entries[r].status) && r !in c.lost
  }

  predicate Evictable(c: Core, r: ExecutionRef) {
    r in c.entries && (Authoritative(c, r) || r in c.unconfirmed) && r !in c.retained
  }

  /** Entries whose frames count toward their connection's byte budget. */
  predicate Budgeted(c: Core, r: ExecutionRef) {
    r in c.entries && (IsTerminalStatus(c.entries[r].status) || r in c.unconfirmed)
  }

  function Put(c: Core, s: ExecutionState): Core {
    c.(entries := c.entries[s.ref := s], order := if s.ref in c.entries then c.order else c.order + [s.ref])
  }

  // ---------------------------------------------------------------------
  // Preview budget

  ghost function Weight(c: Core, connection: Id, r: ExecutionRef): nat {
    if OnConnection(r, connection) && Budgeted(c, r) then PreviewBytes(c.entries[r]) else 0
  }

  ghost function WeightOf(c: Core, connection: Id): ExecutionRef -> nat {
    (r: ExecutionRef) => Weight(c, connection, r)
  }

  predicate Holding(c: Core, connection: Id, r: ExecutionRef) {
    OnConnection(r, connection) && Budgeted(c, r) && HoldsPreviews(c.entries[r])
  }

  function HoldingOf(c: Core, connection: Id): ExecutionRef -> bool {
    (r: ExecutionRef) => Holding(c, connection, r)
  }

  /** Minus the end (or else queueing) time, so that newest sorts first. */
  function Age(c: Core, r: ExecutionRef): int {
    if r !in c.entries then 0
    else if c.entries[r].endedAt.Some? then -c.entries[r].endedAt.value
    else -c.entries[r].queuedAt
  }

  function AgeOf(c: Core): ExecutionRef -> int {
    (r: ExecutionRef) => Age(c, r)
  }

  function NewestFirst(c: Core, connection: Id): seq<ExecutionRef> {
    SortBy(Filter(c.order, HoldingOf(c, connection)), AgeOf(c))
  }

  /** Not the newest, and the entries up to and including this one exceed the budget. */
  ghost predicate OverBudget(c: Core, connection: Id, r: ExecutionRef) {
    exists i :: 0 < i < |NewestFirst(c, connection)| && NewestFirst(c, connection)[i] == r
                && SumBy(NewestFirst(c, connection)[..i + 1], WeightOf(c, connection)) > TERMINAL_PREVIEW_BYTE_BUDGET
  }

  ghost function Stripped(c: Core, connection: Id, r: ExecutionRef): ExecutionState
    requires r in c.entries
  {
    if OverBudget(c, connection, r) then StripPreviewFrames(c.entries[r]) else c.entries[r]
  }

  ghost function Enforce(c: Core, connection: Id): Core {
    c.(entries := map r | r in c.entries :: Stripped(c, connection, r))
  }

  // ---------------------------------------------------------------------
  // Entry cap

  function Tombstone(tombs: seq<ExecutionRef>, r: ExecutionRef): seq<ExecutionRef> {
    var added := if r in tombs then tombs else tombs + [r];
    if |added| <= EXECUTION_ENTRY_CAP * 2 then added else added[1..]
  }

  function EvictOne(c: Core, r: ExecutionRef): Core {
    c.(entries := c.entries - {r}, order := Without(c.order, r), unconfirmed := c.unconfirmed - {r},
      lost := c.lost - {r},
       tombs := Tombstone(c.tombs, r))
  }

  function EvictAll(c: Core, rs: seq<ExecutionRef>): Core {
    if rs == [] then c else EvictOne(EvictAll(c, rs[..|rs| - 1]), rs[|rs| - 1])
  }

  function EvictableOf(c: Core, connection: Id): ExecutionRef -> bool {
    (r: ExecutionRef) => OnConnection(r, connection) && Evictable(c, r)
  }

  function QueuedOf(c: Core): ExecutionRef -> int {
    (r: ExecutionRef) => if r in c.entries then c.entries[r].queuedAt else 0
  }

  function OldestFirst(c: Core, connection: Id): seq<ExecutionRef> {
    SortBy(Filter(c.order, EvictableOf(c, connection)), QueuedOf(c))
  }

  function Count(c: Core, connection: Id): nat {
    |Filter(c.order, Of(connection))|
  }

  /** The entries an eviction pass removes: the oldest evictable ones, no more than the excess. */
  function Victims(c: Core, connection: Id): seq<ExecutionRef> {
    var oldest := OldestFirst(c, connection);
    var excess := Count(c, connection) - EXECUTION_ENTRY_CAP;
    if excess <= 0 then [] else if excess < |oldest| then oldest[..excess] else oldest
  }

  function Evict(c: Core, connection: Id): Core {
    EvictAll(c, Victims(c, connection))
  }

  // ---------------------------------------------------------------------
  // Operations

  function Register(c: Core, r: ExecutionRef, artifact: Id, now: int, jobRef: Option<Id>,
                    sourceDocument: Option<Id>): Core
  {
    var cleared := c.(tombs := Without(c.tombs, r), unconfirmed := c.unconfirmed - {r});
    if r in c.entries then
      var s := c.entries[r];
      Put(cleared, s.(artifact := Some(artifact), jobRef := Prefer(jobRef, s.jobRef),
        sourceDocument := Prefer(sourceDocument, s.sourceDocument)))
    else
      Evict(Put(cleared.(lost := c.lost - {r}),
                NewState(r, Some(artifact), now).(jobRef := jobRef, sourceDocument := sourceDocument)), r.connection)
  }

  /** A completed result whose durable backend proof was revalidated. */
  datatype ProvenResult = ProvenResult(
    ref: ExecutionRef, artifact: Id, nodes: map<Id, NodeProgress>, outputs: map<Id, map<Id, Id>>, artifacts: seq<Id>,
    submittedBy: Option<Id>, jobRef: Id, sourceDocument: Id, queuedAt: int, endedAt: int)

  function RestoredState(p: ProvenResult): ExecutionState {
    NewState(p.ref, Some(p.artifact), p.queuedAt).(
      status := CompletedStatus, nodes := p.nodes, outputs := p.outputs, artifacts := p.artifacts,
        artifactsHydrated := true,
      submittedBy := p.submittedBy, jobRef := Some(p.jobRef), sourceDocument := Some(p.sourceDocument),
        endedAt := Some(p.endedAt))
  }

  function RestoreCompleted(c: Core, p: ProvenResult): Core {
    var r := p.ref;
    if r in c.entries then c
    else
      Evict(Put(c.(tombs := Without(c.tombs, r), unconfirmed := c.unconfirmed - {r}, lost := c.lost - {r}),
        RestoredState(p)),
            r.connection)
  }

  /** The entry an event finds: an unknown key is admitted unconfirmed, unless the event is a run start. */
  function Admit(c: Core, e: ExecutionEvent, r: ExecutionRef, at: int): Core {
    var c0 := if e.Started? then c.(tombs := Without(c.tombs, r), unconfirmed := c.unconfirmed - {r})
              else if r in c.entries then c
              else c.(unconfirmed := c.unconfirmed + {r});
    if r in c.entries then c0 else Put(c0, NewState(r, None, at))
  }

  ghost function ApplyToState(c: Core, e: ExecutionEvent, r: ExecutionRef, at: int): Core
    requires r in c.entries
  {
    var s := c.entries[r];
    var next := Next(s, e, at, r in c.lost);
    if next.None? then c
    else
      var c1 := Put(if Settles(e) then c.(lost := c.lost - {r}) else c, next.value);
      if IsTerminalEvent(e) then Evict(Enforce(c1, r.connection), r.connection)
      else if e.Preview? && Budgeted(c, r) then Enforce(c1, r.connection)
      else c1
  }

  /** An event other than a run start is dropped for a key evicted a while ago and not back yet. */
  predicate Discarded(c: Core, e: ExecutionEvent, r: ExecutionRef) {
    !e.Started? && r !in c.entries && r in c.tombs
  }

  ghost function Apply(c: Core, e: ExecutionEvent, r: ExecutionRef, at: int): Core {
    if Discarded(c, e, r) then c
    else
      var c2 := ApplyToState(Admit(c, e, r, at), e, r, at);
      if r in c.entries then c2 else Evict(c2, r.connection)
  }

  function MergeOutputs(live: map<Id, map<Id, Id>>, outputs: map<Id, map<Id, Id>>): map<Id, map<Id, Id>> {
    live + map n | n in outputs :: outputs[n] + (if n in live then live[n] else map[])
  }

  function HydrateOutputs(c: Core, r: ExecutionRef, outputs: map<Id, map<Id, Id>>): Core {
    if r !in c.entries then c else Put(c, c.entries[r].(outputs := MergeOutputs(c.entries[r].outputs, outputs)))
  }

  function HydrateArtifacts(c: Core, r: ExecutionRef, artifacts: seq<Id>): Core {
    if r !in c.entries then c else Put(c, c.entries[r].(artifacts := artifacts, artifactsHydrated := true))
  }

  function HydrateSubmittedBy(c: Core, r: ExecutionRef, submitter: Id): Core {
    if r !in c.entries then c else Put(c, c.entries[r].(submittedBy := Some(submitter)))
  }

  function LostState(s: ExecutionState, now: int): ExecutionState {
    DropPreviewRings(s).(status := InterruptedStatus, endedAt := Some(now), errors := s.errors + [LostDiagnostic])
  }

  ghost function MarkLost(c: Core, r: ExecutionRef, now: int): Core {
    if r !in c.entries || IsTerminalStatus(c.entries[r].status) then c
    else Enforce(Put(c.(lost := c.lost + {r}), LostState(c.entries[r], now)), r.connection)
  }

  function Retain(c: Core, r: ExecutionRef): Core {
    c.(retained := c.retained[r := (if r in c.retained then c.retained[r] else 0) + 1])
  }

  function Release(c: Core, r: ExecutionRef): Core {
    if r !in c.retained then c
    else if c.retained[r] > 1 then c.(retained := c.retained[r := c.retained[r] - 1])
    else Evict(c.(retained := c.retained - {r}), r.connection)
  }

  datatype Op =
    | RegisterOp(ref: ExecutionRef, artifact: Id, now: int, jobRef: Option<Id>, sourceDocument: Option<Id>)
    | RestoreOp(proven: ProvenResult)
    | ApplyOp(event: ExecutionEvent, ref: ExecutionRef, now: int)
    | QueueOp(connection: Id, remaining: nat)
    | OutputsOp(ref: ExecutionRef, outputs: map<Id, map<Id, Id>>)
    | ArtifactsOp(ref: ExecutionRef, artifacts: seq<Id>)
    | SubmittedByOp(ref: ExecutionRef, submitter: Id)
    | MarkLostOp(ref: ExecutionRef, now: int)
    | RetainOp(ref: ExecutionRef)
    | ReleaseOp(ref: ExecutionRef)

  ghost function Step(c: Core, op: Op): Core {
    match op
    case RegisterOp(r, artifact, now, jobRef, sourceDocument) => Register(c, r, artifact, now, jobRef, sourceDocument)
    case RestoreOp(p) => RestoreCompleted(c, p)
    case ApplyOp(e, r, at) => Apply(c, e, r, at)
    case QueueOp(connection, remaining) => c.(queueRemaining := c.queueRemaining[connection := remaining])
    case OutputsOp(r, outputs) => HydrateOutputs(c, r, outputs)
    case ArtifactsOp(r, artifacts) => HydrateArtifacts(c, r, artifacts)
    case SubmittedByOp(r, submitter) => HydrateSubmittedBy(c, r, submitter)
    case MarkLostOp(r, now) => MarkLost(c, r, now)
    case RetainOp(r) => Retain(c, r)
    case ReleaseOp(r) => Release(c, r)
  }

  ghost function Run(c: Core, ops: seq<Op>): Core {
    if ops == [] then c else Step(Run(c, ops[..|ops| - 1]), ops[|ops| - 1])
  }
}
