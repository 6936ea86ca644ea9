/** One execution as the store holds it, and what each event does to it. */
module ExecutionStates {
  import opened Identity
  import opened ExecutionLog
  import opened SnapshotMerge

  /** Connection and prompt together identify an execution; its printed key is injective in both. */
  datatype ExecutionRef = ExecutionRef(connection: Id, prompt: Id)

  datatype ExecutionStatus = QueuedStatus | RunningStatus | CompletedStatus | ErrorStatus | InterruptedStatus

  predicate IsTerminalStatus(s: ExecutionStatus) {
    s == CompletedStatus || s == ErrorStatus || s == InterruptedStatus
  }

  /** A frame payload object: its identity and its size in bytes. */
  datatype Payload = Payload(identity: Id, bytes: nat)

  /** The absent stream is the default stream. */
  datatype PreviewData = PreviewData(
    payload: Payload, source: Option<Id>, timestamp: int, stream: Option<Id>, frameIndex: Option<nat>,
      frameCount: Option<nat>)

  datatype PreviewRing = PreviewRing(frameCount: nat, frames: map<nat, PreviewData>)

  type Stills = map<Id, map<Option<Id>, PreviewData>>
  type Rings = map<Id, map<Option<Id>, PreviewRing>>

  datatype RegionProgress = RegionProgress(contract: Id, finishedIterations: Option<nat>)
  datatype Diagnostic = LostDiagnostic | RuntimeDiagnostic(code: Id, message: Id, detail: Id)
  datatype ValueDiagnostic = ValueDiagnostic(key: Id, body: Id)

  datatype ExecutionState = ExecutionState(
    ref: ExecutionRef,
    artifact: Option<Id>,
    status: ExecutionStatus,
    nodes: map<Id, NodeProgress>,
    regions: map<Id, RegionProgress>,
    outputs: map<Id, map<Id, Id>>,
    artifacts: seq<Id>,
    artifactsHydrated: bool,
    previews: Stills,
    previewRings: Option<Rings>,
    activities: seq<Id>,
    valueDiagnostics: seq<ValueDiagnostic>,
    log: Log,
    lastPreview: Option<PreviewData>,
    errors: seq<Diagnostic>,
    submittedBy: Option<Id>,
    jobRef: Option<Id>,
    sourceDocument: Option<Id>,
    queuedAt: int,
    startedAt: Option<int>,
    endedAt: Option<int>)

  function NewState(ref: ExecutionRef, artifact: Option<Id>, now: int): ExecutionState {
    ExecutionState(ref, artifact, QueuedStatus, map[], map[], map[], [], false, map[], None, [], [], Log([], 0), None,
      [],
                   None, None, None, now, None, None)
  }

  const ACTIVITY_LOG_CAP: nat := 200
  const VALUE_DIAGNOSTIC_CAP: nat := 200

  datatype ExecutionEvent =
    | NodeEvent
    | Started
    | RegionExpanded(node: Id, contract: Id)
    | RegionFinished(node: Id, iterations: nat)
    | NodeStates(nodes: map<Id, NodeProgress>, snapshot: bool)
    | NodeOutput(node: Id, output: map<Id, Id>)
    | Preview(frame: PreviewData)
    | Activity(activity: Id)
    | ValueDiagnostics(diagnostics: seq<ValueDiagnostic>)
    | LogRecord(entry: LogEntry)
    | ErrorEvent(failedNode: Option<Id>, code: Id, message: Id, detail: Id)
    | Interrupted
    | Completed

  predicate IsTerminalEvent(e: ExecutionEvent) {
    e.ErrorEvent? || e.Interrupted? || e.Completed?
  }

  // ---------------------------------------------------------------------
  // Pure pieces of the transitions

  function WithoutLost(errors: seq<Diagnostic>): (kept: seq<Diagnostic>)
    ensures LostDiagnostic !in kept && forall d :: d in kept <==> d in errors && d != LostDiagnostic
  {
    if errors == [] then []
    else
      assert errors == [errors[0]] + errors[1..];
      (if errors[0] == LostDiagnostic then [] else [errors[0]]) + WithoutLost(errors[1..])
  }

  function DropPreviewRings(s: ExecutionState): ExecutionState {
    s.(previewRings := None)
  }

  function StripPreviewFrames(s: ExecutionState): ExecutionState {
    s.(lastPreview := None, previewRings := None, previews := map[])
  }

  function LastN<T>(xs: seq<T>, n: nat): seq<T> {
    if |xs| > n then xs[|xs| - n..] else xs
  }

  function HasKey(ds: seq<ValueDiagnostic>, key: Id): bool {
    exists i :: 0 <= i < |ds| && ds[i].key == key
  }

  /** New diagnostics are appended once per key. */
  function MergeDiagnostics(existing: seq<ValueDiagnostic>, more: seq<ValueDiagnostic>): seq<ValueDiagnostic> {
    if more == [] then existing
    else
      var front := MergeDiagnostics(existing, more[..|more| - 1]);
      var d := more[|more| - 1];
      if HasKey(front, d.key) then front else front + [d]
  }

  function At<V>(m: map<Id, map<Option<Id>, V>>, node: Id): map<Option<Id>, V> {
    if node in m then m[node] else map[]
  }

  function RingsOf(s: ExecutionState): Rings {
    if s.previewRings.Some? then s.previewRings.value else map[]
  }

  /**
   * The rings after a frame for `node`: unless the run ended, a ring-addressed frame fills its
   * slot, keeping the other slots of a ring of the same length; any other drops its stream's ring.
   */
  function FrameRings(s: ExecutionState, node: Id, frame: PreviewData): Option<Rings> {
    var nodeRings := At(RingsOf(s), node);
    if !IsTerminalStatus(s.status) && frame.frameIndex.Some? && frame.frameCount.Some? then
      var kept := if frame.stream in nodeRings && nodeRings[frame.stream].frameCount == frame.frameCount.value
                  then nodeRings[frame.stream].frames else map[];
      var ring := PreviewRing(frame.frameCount.value, kept[frame.frameIndex.value := frame]);
      Some(RingsOf(s)[node := nodeRings[frame.stream := ring]])
    else if frame.stream in nodeRings then
      var remaining := nodeRings - {frame.stream};
      var others := RingsOf(s) - {node};
      Some(if remaining != map[] then others[node := remaining] else others)
    else s.previewRings
  }

  /** A frame replaces its stream's still; one without a node is kept apart. */
  function WithPreview(s: ExecutionState, frame: PreviewData): ExecutionState {
    if frame.source.None? then s.(lastPreview := Some(frame))
    else
      var node := frame.source.value;
      s.(previews := s.previews[node := At(s.previews, node)[frame.stream := frame]],
        previewRings := FrameRings(s, node, frame))
  }

  function LiveNodes(current: map<Id, NodeProgress>, nodes: map<Id, NodeProgress>): map<Id, NodeProgress> {
    current + map n | n in nodes :: PreserveExecutionDetails(nodes[n], Lookup(current, n))
  }

  /** A loss verdict is withdrawn by the next live event, together with its warning. */
  function Revived(s: ExecutionState): ExecutionState {
    s.(endedAt := None, status := RunningStatus, errors := WithoutLost(s.errors))
  }

  function WakeQueued(s: ExecutionState): ExecutionStatus {
    if s.status == QueuedStatus then RunningStatus else s.status
  }

  function KeptErrors(s: ExecutionState, lost: bool): seq<Diagnostic> {
    if lost then WithoutLost(s.errors) else s.errors
  }

  function WithError(s: ExecutionState, node: Option<Id>, d: Diagnostic, timestamp: int, lost: bool): ExecutionState {
    var nodes := if node.Some?
      then s.nodes[node.value := PreserveExecutionDetails(NodeProgress(Failed, None, None, None, None, None, map[]),
        Lookup(s.nodes, node.value))]
      else s.nodes;
    var base := KeptErrors(s, lost);
    var repeated := exists x :: x in base && SameReport(x, d);
    DropPreviewRings(s).(status := ErrorStatus, endedAt := Some(timestamp), nodes := nodes,
                         errors := if repeated then base else base + [d])
  }

  predicate SameReport(a: Diagnostic, b: Diagnostic) {
    a.RuntimeDiagnostic? && b.RuntimeDiagnostic? && a.code == b.code && a.message == b.message
  }

  /**
   * The state an event arriving at time `at` leaves, or nothing when it changes nothing. `lost` says that a loss
   * verdict is pending; an authoritative terminal state ignores run starts and ends.
   */
  function Next(s: ExecutionState, e: ExecutionEvent, at: int, lost: bool): Option<ExecutionState> {
    var final := IsTerminalStatus(s.status) && !lost;
    match e
    case NodeEvent => None
    case Started =>
      if final then None
      else if lost then Some(Revived(s).(startedAt := Some(at)))
      else Some(s.(status := RunningStatus, startedAt := Some(at)))
    case RegionExpanded(node, contract) =>
      Some(s.(status := WakeQueued(s), regions := s.regions[node := RegionProgress(contract, None)]))
    case RegionFinished(node, iterations) =>
      if node !in s.regions then None
      else Some(s.(regions := s.regions[node := s.regions[node].(finishedIterations := Some(iterations))]))
    case NodeStates(nodes, snapshot) =>
      var merged := if snapshot then MergeSnapshot(s.nodes, nodes) else LiveNodes(s.nodes, nodes);
      if lost then Some(Revived(s).(nodes := merged)) else Some(s.(status := WakeQueued(s), nodes := merged))
    case NodeOutput(node, output) =>
      Some(s.(outputs := s.outputs[node := (if node in s.outputs then s.outputs[node] else map[]) + output]))
    case Preview(frame) => Some(WithPreview(s, frame.(timestamp := at)))
    case Activity(activity) => Some(s.(activities := LastN(s.activities + [activity], ACTIVITY_LOG_CAP)))
    case ValueDiagnostics(more) =>
      var merged := MergeDiagnostics(s.valueDiagnostics, more);
      if |merged| == |s.valueDiagnostics| then None
      else Some(s.(valueDiagnostics := LastN(merged, VALUE_DIAGNOSTIC_CAP)))
    case LogRecord(entry) =>
      var log := Deliver(s.log, entry);
      if log == s.log then None else Some(s.(log := log))
    case ErrorEvent(node, code, message, detail) =>
      if final then None else Some(WithError(s, node, RuntimeDiagnostic(code, message, detail), at, lost))
    case Interrupted =>
      if final then None
      else Some(DropPreviewRings(s).(status := InterruptedStatus, endedAt := Some(at), errors := KeptErrors(s, lost)))
    case Completed =>
      if final then None
      else Some(DropPreviewRings(s).(status := CompletedStatus, endedAt := Some(at), errors := KeptErrors(s, lost)))
  }

  /** Whether the event settles a pending loss verdict. */
  predicate Settles(e: ExecutionEvent) {
    e.Started? || e.NodeStates? || IsTerminalEvent(e)
  }

  // ---------------------------------------------------------------------
  // Preview bytes

  function FramePayloads<K>(frames: map<K, PreviewData>): set<Payload> {
    set k | k in frames :: frames[k].payload
  }

  function StillPayloads(previews: Stills): set<Payload> {
    set n, p | n in previews && p in FramePayloads(previews[n]) :: p
  }

  function StreamPayloads(rings: map<Option<Id>, PreviewRing>): set<Payload> {
    set k, p | k in rings && p in FramePayloads(rings[k].frames) :: p
  }

  function RingPayloads(rings: Rings): set<Payload> {
    set n, p | n in rings && p in StreamPayloads(rings[n]) :: p
  }

  /** The payload objects an entry holds; one shared by a slot and a still counts once. */
  function Payloads(s: ExecutionState): set<Payload> {
    (if s.lastPreview.Some? then {s.lastPreview.value.payload} else {}) + StillPayloads(s.previews)
      + RingPayloads(RingsOf(s))
  }

  ghost function Bytes(ps: set<Payload>): nat
    decreases |ps|
  {
    if ps == {} then 0 else var p :| p in ps; p.bytes + Bytes(ps - {p})
  }

  ghost function PreviewBytes(s: ExecutionState): nat {
    Bytes(Payloads(s))
  }

  predicate HoldsPreviews(s: ExecutionState) {
    s.lastPreview.Some? || s.previews != map[] || s.previewRings.Some?
  }

  lemma {:induction false} BytesRemove(ps: set<Payload>, p: Payload)
    requires p in ps
    ensures Bytes(ps) == p.bytes + Bytes(ps - {p})
    decreases |ps|
  {
    var q :| q in ps && Bytes(ps) == q.bytes + Bytes(ps - {q});
    if p != q {
      BytesRemove(ps - {q}, p);
      BytesRemove(ps - {p}, q);
      assert ps - {q} - {p} == ps - {p} - {q};
    }
  }

  lemma NoPreviewsNoBytes(s: ExecutionState)
    requires !HoldsPreviews(s)
    ensures PreviewBytes(s) == 0
  {
    assert Payloads(s) == {};
  }

  lemma {:induction false} BytesSubset(ps: set<Payload>, qs: set<Payload>)
    requires ps <= qs
    ensures Bytes(ps) <= Bytes(qs)
    decreases |qs|
  {
    if qs != ps {
      var q :| q in qs && q !in ps;
      BytesRemove(qs, q);
      BytesSubset(ps, qs - {q});
    }
  }

  /** Dropping rings, or everything, never adds bytes. */
  lemma DropFewerBytes(s: ExecutionState)
    ensures PreviewBytes(DropPreviewRings(s)) <= PreviewBytes(s)
    ensures PreviewBytes(StripPreviewFrames(s)) == 0 && !HoldsPreviews(StripPreviewFrames(s))
  {
    BytesSubset(Payloads(DropPreviewRings(s)), Payloads(s));
    NoPreviewsNoBytes(StripPreviewFrames(s));
  }

  /** Adds a frame's payload unless the same object was counted already. */
  method CountFrame(frame: PreviewData, counted: set<Payload>, total: nat) returns (counted': set<Payload>, total': nat)
    requires total == Bytes(counted)
    ensures counted' == counted + {frame.payload} && total' == Bytes(counted')
  {
    if frame.payload in counted {
      assert counted + {frame.payload} == counted;
      return counted, total;
    }
    BytesRemove(counted + {frame.payload}, frame.payload);
    assert counted + {frame.payload} - {frame.payload} == counted;
    return counted + {frame.payload}, total + frame.payload.bytes;
  }

  method CountFrames<K(==, !new)>(frames: map<K, PreviewData>, counted: set<Payload>, total: nat)
    returns (counted': set<Payload>, total': nat)
    requires total == Bytes(counted)
    ensures counted' == counted + FramePayloads(frames) && total' == Bytes(counted')
  {
    counted', total' := counted, total;
    var rest := frames.Keys;
    while rest != {}
      invariant rest <= frames.Keys && total' == Bytes(counted')
      invariant counted' == counted + set k | k in frames && k !in rest :: frames[k].payload
      decreases |rest|
    {
      var k :| k in rest;
      rest := rest - {k};
      counted', total' := CountFrame(frames[k], counted', total');
    }
  }

  method CountStills(previews: Stills, counted: set<Payload>, total: nat) returns (counted': set<Payload>, total': nat)
    requires total == Bytes(counted)
    ensures counted' == counted + StillPayloads(previews) && total' == Bytes(counted')
  {
    counted', total' := counted, total;
    var rest := previews.Keys;
    while rest != {}
      invariant rest <= previews.Keys && total' == Bytes(counted')
      invariant counted' == counted + set n, p | n in previews && n !in rest && p in FramePayloads(previews[n]) :: p
      decreases |rest|
    {
      var n :| n in rest;
      rest := rest - {n};
      counted', total' := CountFrames(previews[n], counted', total');
    }
  }

  method CountStreams(rings: map<Option<Id>, PreviewRing>, counted: set<Payload>, total: nat)
    returns (counted': set<Payload>, total': nat)
    requires total == Bytes(counted)
    ensures counted' == counted + StreamPayloads(rings) && total' == Bytes(counted')
  {
    counted', total' := counted, total;
    var rest := rings.Keys;
    while rest != {}
      invariant rest <= rings.Keys && total' == Bytes(counted')
      invariant counted' == counted + set k, p | k in rings && k !in rest && p in FramePayloads(rings[k].frames) :: p
      decreases |rest|
    {
      var k :| k in rest;
      rest := rest - {k};
      counted', total' := CountFrames(rings[k].frames, counted', total');
    }
  }

  method CountRings(rings: Rings, counted: set<Payload>, total: nat) returns (counted': set<Payload>, total': nat)
    requires total == Bytes(counted)
    ensures counted' == counted + RingPayloads(rings) && total' == Bytes(counted')
  {
    counted', total' := counted, total;
    var rest := rings.Keys;
    while rest != {}
      invariant rest <= rings.Keys && total' == Bytes(counted')
      invariant counted' == counted + set n, p | n in rings && n !in rest && p in StreamPayloads(rings[n]) :: p
      decreases |rest|
    {
      var n :| n in rest;
      rest := rest - {n};
      counted', total' := CountStreams(rings[n], counted', total');
    }
  }

  /** The bytes of every distinct payload object the entry holds. */
  method PreviewBytesOf(s: ExecutionState) returns (total: nat)
    ensures total == PreviewBytes(s)
  {
    var counted: set<Payload> := {};
    total := 0;
    if s.lastPreview.Some? {
      counted, total := CountFrame(s.lastPreview.value, counted, total);
    }
    counted, total := CountStills(s.previews, counted, total);
    counted, total := CountRings(RingsOf(s), counted, total);
    assert counted == Payloads(s);
  }

  /** Appends the diagnostics whose key is new. */
  method AddDiagnostics(existing: seq<ValueDiagnostic>, more: seq<ValueDiagnostic>)
    returns (merged: seq<ValueDiagnostic>)
    ensures merged == MergeDiagnostics(existing, more)
  {
    merged := existing;
    var keys := set i | 0 <= i < |existing| :: existing[i].key;
    assert more[..0] == [];
    for i := 0 to |more|
      invariant merged == MergeDiagnostics(existing, more[..i])
      invariant forall k :: k in keys <==> HasKey(merged, k)
    {
      assert more[..i + 1][..i] == more[..i];
      var d := more[i];
      if d.key !in keys {
        AppendedKey(merged, d);
        keys := keys + {d.key};
        merged := merged + [d];
      }
    }
    assert more[..|more|] == more;
  }

  lemma AppendedKey(ds: seq<ValueDiagnostic>, d: ValueDiagnostic)
    ensures forall k :: HasKey(ds + [d], k) <==> HasKey(ds, k) || k == d.key
  {
    forall k
      ensures HasKey(ds + [d], k) <==> HasKey(ds, k) || k == d.key
    {
      assert (ds + [d])[|ds|] == d;
      if HasKey(ds, k) {
        var i :| 0 <= i < |ds| && ds[i].key == k;
        assert (ds + [d])[i].key == k;
      }
    }
  }
}
