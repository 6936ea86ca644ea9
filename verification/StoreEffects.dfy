/** What every operation of the execution store leaves in the entry it addresses, field by field. */
module StoreEffects {
  import opened Identity
  import opened Ordered
  import ExecutionLog
  import opened SnapshotMerge
  import opened ExecutionStates
  import opened StoreCore
  import opened StoreInvariant

  /** An entry as an event of an unknown execution finds it. */
  ghost predicate Blank(s: ExecutionState, r: ExecutionRef, at: int) {
    && s.ref == r && s.artifact.None? && s.status == QueuedStatus
    && s.queuedAt == at && s.startedAt.None? && s.endedAt.None?
    && s.nodes == map[] && s.regions == map[] && s.outputs == map[] && s.artifacts == [] && !s.artifactsHydrated
    && s.activities == [] && s.valueDiagnostics == [] && s.errors == [] && s.log == ExecutionLog.Log([], 0)
    && s.submittedBy.None? && s.jobRef.None? && s.sourceDocument.None? && Bare(s)
  }

  ghost predicate Bare(s: ExecutionState) {
    s.lastPreview.None? && s.previewRings.None? && s.previews == map[]
  }

  predicate Ends(e: ExecutionEvent) {
    e.Completed? || e.ErrorEvent? || e.Interrupted?
  }

  /** Over for good: no verdict that a later event could withdraw. */
  ghost predicate Over(s: ExecutionState, lost: bool) {
    s.status != QueuedStatus && s.status != RunningStatus && !lost
  }

  // ---------------------------------------------------------------------
  // One field after the other

  /** Status and times. */
  ghost predicate CourseEffect(s: ExecutionState, lost: bool, e: ExecutionEvent, at: int, s': ExecutionState) {
    match e
    case Started =>
      if Over(s, lost) then SameCourse(s, s')
      else s'.status == RunningStatus && s'.startedAt == Some(at) && s'.endedAt == if lost then None else s.endedAt
    case Completed => Ended(s, lost, CompletedStatus, at, s')
    case ErrorEvent(_, _, _, _) => Ended(s, lost, ErrorStatus, at, s')
    case Interrupted => Ended(s, lost, InterruptedStatus, at, s')
    case NodeStates(_, _) =>
      if lost then s'.status == RunningStatus && s'.startedAt == s.startedAt && s'.endedAt.None? else Awake(s, s')
    case RegionExpanded(_, _) => Awake(s, s')
    case _ => SameCourse(s, s')
  }

  ghost predicate SameCourse(s: ExecutionState, s': ExecutionState) {
    s'.status == s.status && s'.startedAt == s.startedAt && s'.endedAt == s.endedAt
  }

  ghost predicate Ended(s: ExecutionState, lost: bool, status: ExecutionStatus, at: int, s': ExecutionState) {
    if Over(s, lost) then SameCourse(s, s')
    else s'.status == status && s'.startedAt == s.startedAt && s'.endedAt == Some(at)
  }

  ghost predicate Awake(s: ExecutionState, s': ExecutionState) {
    && s'.status == (if s.status == QueuedStatus then RunningStatus else s.status)
    && s'.startedAt == s.startedAt && s'.endedAt == s.endedAt
  }

  /** A withdrawn verdict takes its warning along, and an error is noted once for its code and message. */
  ghost predicate ErrorsEffect(s: ExecutionState, lost: bool, e: ExecutionEvent, s': ExecutionState) {
    var base := if lost && (e.Started? || e.NodeStates? || Ends(e))
      then Filter(s.errors, (d: Diagnostic) => d != LostDiagnostic)
                else s.errors;
    if e.ErrorEvent? && !Over(s, lost) && !Noted(base, e.code, e.message)
    then s'.errors == base + [RuntimeDiagnostic(e.code, e.message, e.detail)]
    else s'.errors == base
  }

  ghost predicate Noted(errors: seq<Diagnostic>, code: Id, message: Id) {
    exists d :: d in errors && d.RuntimeDiagnostic? && d.code == code && d.message == message
  }

  /** What a report says, with the placement details it omits taken from the previous one. */
  ghost predicate Carried(report: NodeProgress, previous: Option<NodeProgress>, p: NodeProgress) {
    && p.state == report.state && p.outputs == report.outputs && p.details == report.details
    && (if previous.None? then p == report
        else
          && CarriedField(report.executionArm, previous.value.executionArm, p.executionArm)
          && CarriedField(report.worker, previous.value.worker, p.worker)
          && CarriedField(report.provider, previous.value.provider, p.provider)
          && CarriedField(report.pack, previous.value.pack, p.pack))
  }

  ghost predicate CarriedField(report: Option<Id>, previous: Option<Id>, field: Option<Id>) {
    if report.Some? then field == report else field == previous
  }

  /** Two reports of one terminal state: the live one wins wherever both say something. */
  ghost predicate Joined(live: NodeProgress, snapshot: NodeProgress, p: NodeProgress) {
    && p.state == live.state
    && CarriedField(live.executionArm, snapshot.executionArm, p.executionArm)
    && CarriedField(live.worker, snapshot.worker, p.worker)
    && CarriedField(live.provider, snapshot.provider, p.provider)
    && CarriedField(live.pack, snapshot.pack, p.pack)
    && (p.outputs.None? <==> live.outputs.None? && snapshot.outputs.None?)
    && (p.outputs.Some? ==> JoinedMap(OutputsOr(live.outputs), OutputsOr(snapshot.outputs), p.outputs.value))
    && JoinedMap(live.details, snapshot.details, p.details)
  }

  ghost predicate JoinedMap(first: map<Id, Id>, second: map<Id, Id>, joined: map<Id, Id>) {
    && joined.Keys == first.Keys + second.Keys
    && forall k :: k in joined ==> joined[k] == if k in first then first[k] else second[k]
  }

  predicate Finished(p: NodeProgress) {
    p.state != Pending && p.state != Running
  }

  /** What a report makes of one node. */
  ghost predicate NodeEffect(live: Option<NodeProgress>, report: NodeProgress, snapshot: bool, p: NodeProgress) {
    if !snapshot then Carried(report, live, p)
    else if live.None? then p == report
    else if !Finished(live.value) && Finished(report) then Carried(report, live, p)
    else if Finished(live.value) && report.state == live.value.state then Joined(live.value, report, p)
    else p == live.value
  }

  ghost predicate NodesEffect(s: ExecutionState, lost: bool, e: ExecutionEvent, s': ExecutionState) {
    if e.NodeStates? then
      && s'.nodes.Keys == s.nodes.Keys + e.nodes.Keys
      && (forall n :: n in s.nodes && n !in e.nodes ==> s'.nodes[n] == s.nodes[n])
      && (forall n :: n in e.nodes ==> NodeEffect(Lookup(s.nodes, n), e.nodes[n], e.snapshot, s'.nodes[n]))
    else if e.ErrorEvent? && e.failedNode.Some? && !Over(s, lost) then
      var n := e.failedNode.value;
      && s'.nodes.Keys == s.nodes.Keys + {n}
      && (forall m :: m in s.nodes && m != n ==> s'.nodes[m] == s.nodes[m])
      && Carried(NodeProgress(Failed, None, None, None, None, None, map[]), Lookup(s.nodes, n), s'.nodes[n])
    else s'.nodes == s.nodes
  }

  ghost predicate RegionsEffect(s: ExecutionState, e: ExecutionEvent, s': ExecutionState) {
    if e.RegionExpanded? then s'.regions == s.regions[e.node := RegionProgress(e.contract, None)]
    else if e.RegionFinished? && e.node in s.regions then
      s'.regions == s.regions[e.node := RegionProgress(s.regions[e.node].contract, Some(e.iterations))]
    else s'.regions == s.regions
  }

  /** Output by output: a new report wins over the old one of the same name. */
  ghost predicate OutputsEffect(s: ExecutionState, e: ExecutionEvent, s': ExecutionState) {
    if e.NodeOutput? then
      && s'.outputs.Keys == s.outputs.Keys + {e.node}
      && (forall n :: n in s.outputs && n != e.node ==> s'.outputs[n] == s.outputs[n])
      && JoinedMap(e.output, if e.node in s.outputs then s.outputs[e.node] else map[], s'.outputs[e.node])
    else s'.outputs == s.outputs
  }

  /** The newest `cap` of what there was and what came. */
  ghost predicate Newest<T(!new)>(all: seq<T>, cap: nat, kept: seq<T>) {
    && |kept| == (if |all| <= cap then |all| else cap)
    && kept == all[|all| - |kept|..]
  }

  ghost predicate ActivitiesEffect(s: ExecutionState, e: ExecutionEvent, s': ExecutionState) {
    if e.Activity? then Newest(s.activities + [e.activity], 200, s'.activities) else s'.activities == s.activities
  }

  ghost predicate NewKey(existing: seq<ValueDiagnostic>, more: seq<ValueDiagnostic>, i: nat)
    requires i < |more|
  {
    && (forall x :: x in existing ==> x.key != more[i].key)
    && (forall j :: 0 <= j < i ==> more[j].key != more[i].key)
  }

  /** The diagnostics of `more` whose key neither `existing` nor an earlier one of `more` has, in order. */
  ghost function Novel(existing: seq<ValueDiagnostic>, more: seq<ValueDiagnostic>, n: nat): seq<ValueDiagnostic>
    requires n <= |more|
  {
    if n == 0 then []
    else Novel(existing, more, n - 1) + if NewKey(existing, more, n - 1) then [more[n - 1]] else []
  }

  ghost predicate DiagnosticsEffect(s: ExecutionState, e: ExecutionEvent, s': ExecutionState) {
    if e.ValueDiagnostics? && Novel(s.valueDiagnostics, e.diagnostics, |e.diagnostics|) != [] then
      Newest(s.valueDiagnostics + Novel(s.valueDiagnostics, e.diagnostics, |e.diagnostics|), 200, s'.valueDiagnostics)
    else s'.valueDiagnostics == s.valueDiagnostics
  }

  ghost predicate LogEffect(s: ExecutionState, e: ExecutionEvent, s': ExecutionState) {
    s'.log == if e.LogRecord? then ExecutionLog.Deliver(s.log, e.entry) else s.log
  }

  /** What no event touches. */
  ghost predicate SameRest(s: ExecutionState, s': ExecutionState) {
    && s'.ref == s.ref && s'.artifact == s.artifact && s'.queuedAt == s.queuedAt
    && s'.artifacts == s.artifacts && s'.artifactsHydrated == s.artifactsHydrated
    && s'.submittedBy == s.submittedBy && s'.jobRef == s.jobRef && s'.sourceDocument == s.sourceDocument
  }

  ghost predicate EventEffect(s: ExecutionState, lost: bool, e: ExecutionEvent, at: int, s': ExecutionState) {
    && CourseEffect(s, lost, e, at, s') && ErrorsEffect(s, lost, e, s') && NodesEffect(s, lost, e, s')
    && RegionsEffect(s, e, s') && OutputsEffect(s, e, s') && ActivitiesEffect(s, e, s') && DiagnosticsEffect(s, e, s')
    && LogEffect(s, e, s') && SameRest(s, s')
  }

  // ---------------------------------------------------------------------
  // Frames

  ghost function StillAt(s: ExecutionState, n: Id, k: Option<Id>): Option<PreviewData> {
    if n in s.previews && k in s.previews[n] then Some(s.previews[n][k]) else None
  }

  ghost function RingAt(s: ExecutionState, n: Id, k: Option<Id>): Option<PreviewRing> {
    if s.previewRings.Some? && n in s.previewRings.value && k in s.previewRings.value[n]
    then Some(s.previewRings.value[n][k]) else None
  }

  /** A ring with the frame in its slot and, if it has the length it had, the other slots as they were. */
  ghost predicate Slotted(was: Option<PreviewRing>, frame: PreviewData, index: nat, count: nat,
                          ring: Option<PreviewRing>)
  {
    && ring.Some? && ring.value.frameCount == count
    && index in ring.value.frames && ring.value.frames[index] == frame
    && (if was.Some? && was.value.frameCount == count
        then ring.value.frames.Keys == was.value.frames.Keys + {index}
             && forall i :: i in was.value.frames && i != index ==> ring.value.frames[i] == was.value.frames[i]
        else ring.value.frames.Keys == {index})
  }

  ghost predicate PreviewEffect(s: ExecutionState, frame: PreviewData, s': ExecutionState) {
    if frame.source.None? then
      s'.lastPreview == Some(frame) && s'.previews == s.previews && s'.previewRings == s.previewRings
    else
      var n, k := frame.source.value, frame.stream;
      var fills := (s.status == QueuedStatus || s.status == RunningStatus) && frame.frameIndex.Some?
        && frame.frameCount.Some?;
      && s'.lastPreview == s.lastPreview
      && StillAt(s', n, k) == Some(frame)
      && (forall m, j ::
         (m, j) != (n, k) ==> StillAt(s', m, j) == StillAt(s, m, j) && RingAt(s', m, j) == RingAt(s, m, j))
      && (if fills
         then Slotted(RingAt(s, n, k), frame, frame.frameIndex.value, frame.frameCount.value, RingAt(s', n, k))
          else RingAt(s', n, k).None?)
      && (s'.previewRings.None? <==> s.previewRings.None? && !fills)
  }

  ghost predicate FramesEffect(s: ExecutionState, lost: bool, e: ExecutionEvent, at: int, s': ExecutionState) {
    if e.Preview? then PreviewEffect(s, e.frame.(timestamp := at), s')
    else
      && s'.lastPreview == s.lastPreview && s'.previews == s.previews
      && s'.previewRings == if Ends(e) && !Over(s, lost) then None else s.previewRings
  }

  // ---------------------------------------------------------------------
  // The transition

  /** The state an event leaves, also where it changes nothing. */
  ghost function Left(s: ExecutionState, lost: bool, e: ExecutionEvent, at: int): ExecutionState {
    if Next(s, e, at, lost).Some? then Next(s, e, at, lost).value else s
  }

  lemma {:induction false} WithoutLostFilters(errors: seq<Diagnostic>)
    ensures WithoutLost(errors) == Filter(errors, (d: Diagnostic) => d != LostDiagnostic)
  {
    if errors != [] {
      WithoutLostFilters(errors[1..]);
    }
  }

  lemma LeftCourse(s: ExecutionState, lost: bool, e: ExecutionEvent, at: int)
    ensures CourseEffect(s, lost, e, at, Left(s, lost, e, at)) && SameRest(s, Left(s, lost, e, at))
  {
    hide ExecutionLog.Deliver;
    hide WithError;
    hide WithPreview;
    hide LiveNodes;
    hide MergeSnapshot;
    hide MergeDiagnostics;
    hide LastN;
    hide WithoutLost;
    Kept(s, lost, e, at);
  }

  lemma LeftErrors(s: ExecutionState, lost: bool, e: ExecutionEvent, at: int)
    ensures ErrorsEffect(s, lost, e, Left(s, lost, e, at))
  {
    WithoutLostFilters(s.errors);
    hide ExecutionLog.Deliver;
    hide FrameRings;
    hide LiveNodes;
    hide MergeSnapshot;
    hide MergeDiagnostics;
    hide LastN;
    hide WithoutLost;
    hide Filter;
    hide PreserveExecutionDetails;
  }

  lemma MergedNode(live: Option<NodeProgress>, report: NodeProgress)
    ensures NodeEffect(live, report, true, MergeNode(live, report))
    ensures NodeEffect(live, report, false, PreserveExecutionDetails(report, live))
  {
  }

  lemma LeftNodes(s: ExecutionState, lost: bool, e: ExecutionEvent, at: int)
    ensures NodesEffect(s, lost, e, Left(s, lost, e, at))
  {
    hide *;
    if e.NodeStates? {
      LeftStates(s, lost, e, at);
    } else if e.ErrorEvent? {
      LeftFailed(s, lost, e, at);
    } else {
      LeftOtherwise(s, lost, e, at);
      SameNodes(s, lost, e, Left(s, lost, e, at));
    }
  }

  lemma SameNodes(s: ExecutionState, lost: bool, e: ExecutionEvent, s': ExecutionState)
    requires !e.NodeStates? && !e.ErrorEvent? && s'.nodes == s.nodes
    ensures NodesEffect(s, lost, e, s')
  {
  }

  /** What an error report does not touch. */
  lemma ErrorKeeps(s: ExecutionState, node: Option<Id>, d: Diagnostic, at: int, lost: bool)
    ensures var s' := WithError(s, node, d, at, lost);
            s' == s.(status := ErrorStatus, endedAt := Some(at), nodes := s'.nodes, errors := s'.errors,
              previewRings := None)
  {
    hide WithoutLost;
    hide PreserveExecutionDetails;
  }

  /** What a frame does not touch. */
  lemma FrameKeeps(s: ExecutionState, frame: PreviewData)
    ensures var s' := WithPreview(s, frame);
            s' == s.(lastPreview := s'.lastPreview, previews := s'.previews, previewRings := s'.previewRings)
  {
    hide FrameRings;
    hide At;
  }

  lemma Kept(s: ExecutionState, lost: bool, e: ExecutionEvent, at: int)
    ensures e.ErrorEvent? ==>
              var s' := WithError(s, e.failedNode, RuntimeDiagnostic(e.code, e.message, e.detail), at, lost);
              s' == s.(status := ErrorStatus, endedAt := Some(at), nodes := s'.nodes, errors := s'.errors,
                previewRings := None)
    ensures e.Preview? ==>
              var s' := WithPreview(s, e.frame.(timestamp := at));
              s' == s.(lastPreview := s'.lastPreview, previews := s'.previews, previewRings := s'.previewRings)
  {
    hide *;
    if e.ErrorEvent? {
      ErrorKeeps(s, e.failedNode, RuntimeDiagnostic(e.code, e.message, e.detail), at, lost);
    }
    if e.Preview? {
      FrameKeeps(s, e.frame.(timestamp := at));
    }
  }

  /** The fields an event kind does not mention. */
  lemma LeftOtherwise(s: ExecutionState, lost: bool, e: ExecutionEvent, at: int)
    ensures var s' := Left(s, lost, e, at);
            && (!e.NodeStates? && !e.ErrorEvent? ==> s'.nodes == s.nodes)
            && (!e.RegionExpanded? && !e.RegionFinished? ==> s'.regions == s.regions)
            && (!e.NodeOutput? ==> s'.outputs == s.outputs)
            && (!e.Activity? ==> s'.activities == s.activities)
            && (!e.LogRecord? ==> s'.log == s.log)
  {
    hide ExecutionLog.Deliver;
    hide WithError;
    hide WithPreview;
    hide LiveNodes;
    hide MergeSnapshot;
    hide MergeDiagnostics;
    hide LastN;
    hide WithoutLost;
    Kept(s, lost, e, at);
  }

  lemma LeftElsewhere(s: ExecutionState, lost: bool, e: ExecutionEvent, at: int)
    ensures var s' := Left(s, lost, e, at);
            && (!e.ValueDiagnostics? ==> s'.valueDiagnostics == s.valueDiagnostics)
            && (!e.Preview? ==> s'.lastPreview == s.lastPreview && s'.previews == s.previews)
            && (!e.Preview? && !Ends(e) ==> s'.previewRings == s.previewRings)
  {
    hide ExecutionLog.Deliver;
    hide WithError;
    hide WithPreview;
    hide LiveNodes;
    hide MergeSnapshot;
    hide MergeDiagnostics;
    hide LastN;
    hide WithoutLost;
    Kept(s, lost, e, at);
  }

  lemma LeftStates(s: ExecutionState, lost: bool, e: ExecutionEvent, at: int)
    requires e.NodeStates?
    ensures NodesEffect(s, lost, e, Left(s, lost, e, at))
  {
    hide WithoutLost;
    hide PreserveExecutionDetails;
    hide MergeNode;
    hide NodeEffect;
    hide MergeSnapshot;
    hide LiveNodes;
    assert Left(s, lost, e, at).nodes == if e.snapshot then MergeSnapshot(s.nodes, e.nodes)
      else LiveNodes(s.nodes, e.nodes);
    MergedNodes(s.nodes, e.nodes);
  }

  lemma MergedNodes(current: map<Id, NodeProgress>, nodes: map<Id, NodeProgress>)
    ensures MergeSnapshot(current, nodes).Keys == LiveNodes(current, nodes).Keys == current.Keys + nodes.Keys
    ensures forall n :: n in current && n !in nodes ==>
              MergeSnapshot(current, nodes)[n] == LiveNodes(current, nodes)[n] == current[n]
    ensures forall n :: n in nodes ==>
              && NodeEffect(Lookup(current, n), nodes[n], true, MergeSnapshot(current, nodes)[n])
              && NodeEffect(Lookup(current, n), nodes[n], false, LiveNodes(current, nodes)[n])
  {
    hide PreserveExecutionDetails;
    hide MergeNode;
    hide NodeEffect;
    forall n | n in nodes
      ensures NodeEffect(Lookup(current, n), nodes[n], true, MergeSnapshot(current, nodes)[n])
      ensures NodeEffect(Lookup(current, n), nodes[n], false, LiveNodes(current, nodes)[n])
    {
      MergedNode(Lookup(current, n), nodes[n]);
    }
  }

  lemma LeftFailed(s: ExecutionState, lost: bool, e: ExecutionEvent, at: int)
    requires e.ErrorEvent?
    ensures NodesEffect(s, lost, e, Left(s, lost, e, at))
  {
    hide WithoutLost;
    hide PreserveExecutionDetails;
    hide Carried;
    if e.failedNode.Some? {
      FailedNode(Lookup(s.nodes, e.failedNode.value));
    }
  }

  lemma FailedNode(live: Option<NodeProgress>)
    ensures var failed := NodeProgress(Failed, None, None, None, None, None, map[]);
            Carried(failed, live, PreserveExecutionDetails(failed, live))
  {
  }

  lemma LeftReports(s: ExecutionState, lost: bool, e: ExecutionEvent, at: int)
    ensures RegionsEffect(s, e, Left(s, lost, e, at)) && OutputsEffect(s, e, Left(s, lost, e, at))
    ensures ActivitiesEffect(s, e, Left(s, lost, e, at)) && LogEffect(s, e, Left(s, lost, e, at))
  {
    hide ExecutionLog.Deliver;
    hide Newest;
    hide JoinedMap;
    hide Left;
    hide Next;
    LeftOtherwise(s, lost, e, at);
    match e
    case RegionExpanded(_, _) => LeftReport(s, lost, e, at);
    case RegionFinished(_, _) => LeftReport(s, lost, e, at);
    case NodeOutput(_, _) => LeftReport(s, lost, e, at);
    case Activity(_) => LeftReport(s, lost, e, at);
    case LogRecord(_) => LeftReport(s, lost, e, at);
    case _ =>
  }

  lemma LeftReport(s: ExecutionState, lost: bool, e: ExecutionEvent, at: int)
    requires e.RegionExpanded? || e.RegionFinished? || e.NodeOutput? || e.Activity? || e.LogRecord?
    ensures RegionsEffect(s, e, Left(s, lost, e, at)) && OutputsEffect(s, e, Left(s, lost, e, at))
    ensures ActivitiesEffect(s, e, Left(s, lost, e, at)) && LogEffect(s, e, Left(s, lost, e, at))
  {
    hide ExecutionLog.Deliver;
  }

  /** Appending once per key is appending what is novel. */
  lemma {:induction false} MergedIsNovel(existing: seq<ValueDiagnostic>, more: seq<ValueDiagnostic>, n: nat)
    requires n <= |more|
    ensures MergeDiagnostics(existing, more[..n]) == existing + Novel(existing, more, n)
    ensures forall k :: HasKey(MergeDiagnostics(existing, more[..n]), k) <==>
                        HasKey(existing, k) || exists j :: 0 <= j < n && more[j].key == k
  {
    if n == 0 {
      assert more[..0] == [];
    } else {
      MergedIsNovel(existing, more, n - 1);
      assert more[..n][..n - 1] == more[..n - 1];
      var front, d := MergeDiagnostics(existing, more[..n - 1]), more[n - 1];
      AppendedKey(front, d);
      NewKeyExactly(existing, more, n - 1, front);
      hide MergeDiagnostics;
    }
  }

  lemma NewKeyExactly(existing: seq<ValueDiagnostic>, more: seq<ValueDiagnostic>, i: nat, front: seq<ValueDiagnostic>)
    requires i < |more|
    requires forall k :: HasKey(front, k) <==> HasKey(existing, k) || exists j :: 0 <= j < i && more[j].key == k
    ensures NewKey(existing, more, i) <==> !HasKey(front, more[i].key)
  {
    if HasKey(existing, more[i].key) {
      var j :| 0 <= j < |existing| && existing[j].key == more[i].key;
      assert existing[j] in existing;
    }
  }

  lemma LeftDiagnostics(s: ExecutionState, lost: bool, e: ExecutionEvent, at: int)
    ensures DiagnosticsEffect(s, e, Left(s, lost, e, at))
  {
    if e.ValueDiagnostics? {
      MergedIsNovel(s.valueDiagnostics, e.diagnostics, |e.diagnostics|);
      assert e.diagnostics[..|e.diagnostics|] == e.diagnostics;
    }
    hide ExecutionLog.Deliver;
    hide FrameRings;
    hide LiveNodes;
    hide MergeSnapshot;
    hide MergeDiagnostics;
    hide WithoutLost;
    hide PreserveExecutionDetails;
    hide Novel;
  }

  lemma LeftFrames(s: ExecutionState, lost: bool, e: ExecutionEvent, at: int)
    ensures FramesEffect(s, lost, e, at, Left(s, lost, e, at))
  {
    hide *;
    if e.Preview? {
      PreviewFiled(s, e.frame.(timestamp := at));
      LeftPreview(s, lost, e, at);
    } else if Ends(e) {
      LeftEnded(s, lost, e, at);
    } else {
      LeftElsewhere(s, lost, e, at);
      SameFrames(s, lost, e, at, Left(s, lost, e, at));
    }
  }

  lemma SameFrames(s: ExecutionState, lost: bool, e: ExecutionEvent, at: int, s': ExecutionState)
    requires !e.Preview? && !Ends(e)
    requires s'.lastPreview == s.lastPreview && s'.previews == s.previews && s'.previewRings == s.previewRings
    ensures FramesEffect(s, lost, e, at, s')
  {
    hide PreviewEffect;
  }

  lemma LeftPreview(s: ExecutionState, lost: bool, e: ExecutionEvent, at: int)
    requires e.Preview? && PreviewEffect(s, e.frame.(timestamp := at), WithPreview(s, e.frame.(timestamp := at)))
    ensures FramesEffect(s, lost, e, at, Left(s, lost, e, at))
  {
    hide PreviewEffect;
    hide WithPreview;
  }

  lemma LeftEnded(s: ExecutionState, lost: bool, e: ExecutionEvent, at: int)
    requires Ends(e)
    ensures FramesEffect(s, lost, e, at, Left(s, lost, e, at))
  {
    hide PreviewEffect;
    hide WithoutLost;
    hide PreserveExecutionDetails;
  }

  lemma PreviewFiled(s: ExecutionState, frame: PreviewData)
    ensures PreviewEffect(s, frame, WithPreview(s, frame))
  {
    if frame.source.Some? {
      var n, k := frame.source.value, frame.stream;
      var s' := WithPreview(s, frame);
      StillFiled(s, n, frame);
      RingFiled(s, n, frame);
      RingsElsewhere(s, n, frame);
      hide FrameRings;
      hide StillAt;
      hide RingAt;
      hide Slotted;
    }
  }

  lemma StillFiled(s: ExecutionState, n: Id, frame: PreviewData)
    requires frame.source == Some(n)
    ensures StillAt(WithPreview(s, frame), n, frame.stream) == Some(frame)
    ensures forall m, j :: (m, j) != (n, frame.stream) ==> StillAt(WithPreview(s, frame), m, j) == StillAt(s, m, j)
  {
    hide FrameRings;
  }

  lemma RingFiled(s: ExecutionState, n: Id, frame: PreviewData)
    requires frame.source == Some(n)
    ensures var fills := (s.status == QueuedStatus || s.status == RunningStatus) && frame.frameIndex.Some?
            && frame.frameCount.Some?;
            var s' := WithPreview(s, frame);
            && (if fills then Slotted(RingAt(s, n, frame.stream), frame, frame.frameIndex.value, frame.frameCount.value,
                                      RingAt(s', n, frame.stream))
                else RingAt(s', n, frame.stream).None?)
            && (s'.previewRings.None? <==> s.previewRings.None? && !fills)
  {
  }

  lemma RingsElsewhere(s: ExecutionState, n: Id, frame: PreviewData)
    requires frame.source == Some(n)
    ensures forall m, j :: (m, j) != (n, frame.stream) ==> RingAt(WithPreview(s, frame), m, j) == RingAt(s, m, j)
  {
    hide RingAt;
    hide WithPreview;
    forall m, j | (m, j) != (n, frame.stream)
      ensures RingAt(WithPreview(s, frame), m, j) == RingAt(s, m, j)
    {
      RingElsewhere(s, n, frame, m, j);
    }
  }

  lemma RingElsewhere(s: ExecutionState, n: Id, frame: PreviewData, m: Id, j: Option<Id>)
    requires frame.source == Some(n) && (m, j) != (n, frame.stream)
    ensures RingAt(WithPreview(s, frame), m, j) == RingAt(s, m, j)
  {
    hide FrameRings;
    assert WithPreview(s, frame).previewRings == FrameRings(s, n, frame);
    if m == n {
      OtherStream(s, n, frame, j);
    } else {
      OtherNode(s, n, frame, m);
    }
  }

  lemma OtherNode(s: ExecutionState, n: Id, frame: PreviewData, m: Id)
    requires m != n
    ensures FrameRings(s, n, frame).Some? ==>
              && (m in FrameRings(s, n, frame).value <==> m in RingsOf(s))
              && (m in RingsOf(s) ==> FrameRings(s, n, frame).value[m] == RingsOf(s)[m])
    ensures FrameRings(s, n, frame).None? ==> s.previewRings.None?
  {
    hide IsTerminalStatus;
  }

  lemma OtherStream(s: ExecutionState, n: Id, frame: PreviewData, j: Option<Id>)
    requires j != frame.stream
    ensures FrameRings(s, n, frame).Some? ==>
              var rings := FrameRings(s, n, frame).value;
              && (n in rings && j in rings[n] <==> n in RingsOf(s) && j in RingsOf(s)[n])
              && (n in rings && j in rings[n] ==> rings[n][j] == RingsOf(s)[n][j])
    ensures FrameRings(s, n, frame).None? ==> s.previewRings.None?
  {
    hide IsTerminalStatus;
    var nodeRings := At(RingsOf(s), n);
    var remaining := nodeRings - {frame.stream};
    assert j in nodeRings <==> j in remaining;
    assert remaining == map[] ==> j !in remaining;
  }

  lemma LeftEffect(s: ExecutionState, lost: bool, e: ExecutionEvent, at: int)
    ensures EventEffect(s, lost, e, at, Left(s, lost, e, at)) && FramesEffect(s, lost, e, at, Left(s, lost, e, at))
  {
    hide *;
    LeftCourse(s, lost, e, at);
    LeftErrors(s, lost, e, at);
    LeftNodes(s, lost, e, at);
    LeftReports(s, lost, e, at);
    LeftDiagnostics(s, lost, e, at);
    LeftFrames(s, lost, e, at);
    AllEffects(s, lost, e, at, Left(s, lost, e, at));
  }

  lemma AllEffects(s: ExecutionState, lost: bool, e: ExecutionEvent, at: int, s': ExecutionState)
    requires CourseEffect(s, lost, e, at, s') && ErrorsEffect(s, lost, e, s') && NodesEffect(s, lost, e, s')
    requires RegionsEffect(s, e, s') && OutputsEffect(s, e, s') && ActivitiesEffect(s, e, s')
    requires DiagnosticsEffect(s, e, s') && LogEffect(s, e, s') && SameRest(s, s')
    ensures EventEffect(s, lost, e, at, s')
  {
  }

  // ---------------------------------------------------------------------
  // The store's passes

  /** The same entry, all its frames kept or all stripped. */
  ghost predicate Alike(s: ExecutionState, s': ExecutionState) {
    s' == s || s' == s.(lastPreview := None, previewRings := None, previews := map[])
  }

  /** An entry that is there afterwards was there, alike. */
  ghost predicate Rests(c: Core, c': Core, r: ExecutionRef) {
    r in c'.entries ==>
      && r in c.entries && Alike(c.entries[r], c'.entries[r])
      && (r in c'.lost <==> r in c.lost) && (r in c'.unconfirmed <==> r in c.unconfirmed)
  }

  /** The same, with every frame. */
  ghost predicate RestsWhole(c: Core, c': Core, r: ExecutionRef) {
    Rests(c, c', r) && (r in c'.entries ==> c'.entries[r] == c.entries[r])
  }

  lemma EnforceRests(c: Core, connection: Id, r: ExecutionRef)
    requires Shape(c)
    ensures Rests(c, Enforce(c, connection), r)
    ensures r.connection != connection ==> RestsWhole(c, Enforce(c, connection), r)
  {
    hide Shape;
    hide OverBudget;
    if r.connection != connection {
      OverHere(c, connection, r);
    }
  }

  lemma OverHere(c: Core, connection: Id, r: ExecutionRef)
    requires r.connection != connection
    ensures !OverBudget(c, connection, r)
  {
    assert r !in Filter(c.order, HoldingOf(c, connection));
    assert r !in NewestFirst(c, connection);
  }

  lemma EvictRests(c: Core, connection: Id, r: ExecutionRef)
    requires Shape(c)
    ensures RestsWhole(c, Evict(c, connection), r)
  {
    hide Shape;
    hide Victims;
    hide EvictAll;
    hide Distinct;
    hide Within;
    hide Count;
    hide Alike;
    VictimsLemma(c, connection);
    EvictAllLemma(c, Victims(c, connection), connection, connection);
    if r in c.entries {
      AlikeItself(c.entries[r]);
    }
  }

  lemma AlikeItself(s: ExecutionState)
    ensures Alike(s, s)
  {
  }

  lemma RestsBoth(c: Core, c1: Core, c2: Core, r: ExecutionRef)
    requires Rests(c, c1, r) && Rests(c1, c2, r)
    ensures Rests(c, c2, r)
    ensures RestsWhole(c, c1, r) && RestsWhole(c1, c2, r) ==> RestsWhole(c, c2, r)
  {
  }

  /** Whether an event may strip frames: it ends the run, or it is a frame that counts toward the budget. */
  ghost predicate Strips(c: Core, e: ExecutionEvent, r: ExecutionRef) {
    Ends(e) || (e.Preview? && (r in c.unconfirmed || (r in c.entries && c.entries[r].status != QueuedStatus
                                                      && c.entries[r].status != RunningStatus)))
  }

  /** The store right after the transition. */
  ghost function AfterEvent(c: Core, e: ExecutionEvent, r: ExecutionRef, at: int): Core
    requires r in c.entries
  {
    if Next(c.entries[r], e, at, r in c.lost).Some? then AfterNext(c, e, r, at) else c
  }

  lemma AfterEventEffect(c: Core, e: ExecutionEvent, x: ExecutionRef, at: int, r: ExecutionRef)
    requires Shape(c) && x in c.entries
    ensures var c1 := AfterEvent(c, e, x, at);
            && Shape(c1) && c1.unconfirmed == c.unconfirmed
            && (x == r ==> r in c1.entries && c1.entries[r] == Left(c.entries[r], r in c.lost, e, at)
                           && (r in c1.lost <==> r in c.lost && !(e.Started? || e.NodeStates? || Ends(e))))
            && (x != r ==> RestsWhole(c, c1, r))
  {
    hide Next;
    hide Shape;
    hide GoodEntry;
    hide StripPreviewFrames;
    hide AfterNext;
    EntryIsGood(c, x);
    if Next(c.entries[x], e, at, x in c.lost).Some? {
      AfterNextLemma(c, e, x, at, x.connection);
      var s' := Next(c.entries[x], e, at, x in c.lost).value;
      NextGood(c.entries[x], x, e, at, x in c.lost);
      GoodRef(s', x, x in c.lost && !Settles(e));
      AfterNextPuts(c, e, x, at, r);
    } else {
      LostIsHeard(c.entries[x], e, at);
    }
  }

  lemma AfterNextPuts(c: Core, e: ExecutionEvent, x: ExecutionRef, at: int, r: ExecutionRef)
    requires x in c.entries && Next(c.entries[x], e, at, x in c.lost).Some?
    requires Next(c.entries[x], e, at, x in c.lost).value.ref == x
    ensures var c1 := AfterNext(c, e, x, at);
            && c1.unconfirmed == c.unconfirmed && x in c1.entries
            && c1.entries[x] == Next(c.entries[x], e, at, x in c.lost).value
            && (x in c1.lost <==> x in c.lost && !(e.Started? || e.NodeStates? || Ends(e)))
            && (x != r ==> RestsWhole(c, c1, r))
  {
    hide Next;
  }

  /** What would settle a pending verdict does change the entry. */
  lemma LostIsHeard(s: ExecutionState, e: ExecutionEvent, at: int)
    ensures Next(s, e, at, true).None? ==> !e.Started? && !e.NodeStates? && !Ends(e)
  {
    hide ExecutionLog.Deliver;
    hide WithPreview;
    hide WithError;
    hide MergeDiagnostics;
  }

  /** The passes after the transition leave entries alike, and whole unless the event may strip. */
  lemma PassesRest(c: Core, e: ExecutionEvent, x: ExecutionRef, at: int, r: ExecutionRef)
    requires Shape(c) && x in c.entries
    ensures Shape(ApplyToState(c, e, x, at))
    ensures Rests(AfterEvent(c, e, x, at), ApplyToState(c, e, x, at), r)
    ensures !Strips(c, e, x) || r.connection != x.connection ==>
              RestsWhole(AfterEvent(c, e, x, at), ApplyToState(c, e, x, at), r)
  {
    hide Shape;
    hide Rests;
    hide RestsWhole;
    hide Enforce;
    hide Evict;
    hide Next;
    hide AfterEvent;
    var c1 := AfterEvent(c, e, x, at);
    ApplyToStateLemma(c, e, x, at, x.connection);
    AfterEventEffect(c, e, x, at, r);
    PassesAre(c, e, x, at);
    Itself(c1, r);
    EnforceRests(c1, x.connection, r);
    EnforceLemma(c1, x.connection, x.connection);
    EvictRests(Enforce(c1, x.connection), x.connection, r);
    WholeRests(c1, Enforce(c1, x.connection), r);
    WholeRests(Enforce(c1, x.connection), Evict(Enforce(c1, x.connection), x.connection), r);
    RestsBoth(c1, Enforce(c1, x.connection), Evict(Enforce(c1, x.connection), x.connection), r);
  }

  lemma Itself(c: Core, r: ExecutionRef)
    ensures Rests(c, c, r) && RestsWhole(c, c, r)
  {
  }

  lemma WholeRests(c: Core, c': Core, r: ExecutionRef)
    ensures RestsWhole(c, c', r) ==> Rests(c, c', r)
  {
  }

  lemma PassesAre(c: Core, e: ExecutionEvent, x: ExecutionRef, at: int)
    requires Shape(c) && x in c.entries
    ensures var c1, c2 := AfterEvent(c, e, x, at), ApplyToState(c, e, x, at);
            c2 == c1 || (Strips(c, e, x) && (c2 == Enforce(c1, x.connection)
                                             || c2 == Evict(Enforce(c1, x.connection), x.connection)))
  {
    hide Enforce;
    hide Evict;
    hide Next;
    hide Shape;
  }

  /** The effect on the fields that are not frames is the same on alike entries. */
  lemma AlikeEffect(s: ExecutionState, lost: bool, e: ExecutionEvent, at: int, m: ExecutionState, s': ExecutionState)
    requires EventEffect(s, lost, e, at, m) && Alike(m, s')
    ensures EventEffect(s, lost, e, at, s')
  {
    hide NodeEffect;
    hide Carried;
    hide Newest;
    hide Novel;
    hide JoinedMap;
    hide Noted;
  }

  /** How an event's entry is found: admitted as a blank one if there is none. */
  lemma AdmitFinds(c: Core, e: ExecutionEvent, r: ExecutionRef, at: int, s: ExecutionState)
    requires Shape(c) && !Discarded(c, e, r)
    requires if r in c.entries then s == c.entries[r] else Blank(s, r, at)
    ensures var c1 := Admit(c, e, r, at);
            && Shape(c1) && r in c1.entries && c1.entries[r] == s && (r in c1.lost <==> r in c.lost)
            && (r in c1.unconfirmed <==> !e.Started? && (r in c.unconfirmed || r !in c.entries))
  {
    AdmitLemma(c, e, r, at, r.connection);
  }

  lemma AdmitRests(c: Core, e: ExecutionEvent, x: ExecutionRef, at: int, r: ExecutionRef)
    requires x != r
    ensures RestsWhole(c, Admit(c, e, x, at), r)
  {
  }

  /**
   * What an event leaves in its entry, if that stays: every field is as the event says, what it does
   * not mention is as it was, and the frames are filed or, beyond the budget, stripped.
   */
  lemma ApplyEffect(c: Core, e: ExecutionEvent, r: ExecutionRef, at: int, s: ExecutionState)
    requires Shape(c) && r in Apply(c, e, r, at).entries
    requires if r in c.entries then s == c.entries[r] else Blank(s, r, at)
    ensures var c', lost := Apply(c, e, r, at), r in c.lost;
            var s' := c'.entries[r];
            && EventEffect(s, lost, e, at, s')
            && (FramesEffect(s, lost, e, at, s') || Bare(s'))
            && (r in c'.lost <==> lost && !(e.Started? || e.NodeStates? || Ends(e)))
            && (r in c'.unconfirmed <==> !e.Started? && (r in c.unconfirmed || r !in c.entries))
    ensures !Strips(c, e, r) && !(e.Preview? && r !in c.entries) ==>
              FramesEffect(s, r in c.lost, e, at, Apply(c, e, r, at).entries[r])
  {
    hide *;
    NotDiscarded(c, e, r, at);
    AdmitFinds(c, e, r, at, s);
    var c1 := Admit(c, e, r, at);
    var c2, c3 := AfterEvent(c1, e, r, at), ApplyToState(c1, e, r, at);
    AfterEventEffect(c1, e, r, at, r);
    LeftEffect(s, r in c.lost, e, at);
    PassesRest(c1, e, r, at, r);
    EvictRests(c3, r.connection, r);
    ApplyIs(c, e, r, at);
    AdmittedStrips(c, e, r, at);
    Landed(c2, c3, Apply(c, e, r, at), r);
    AlikeEffect(s, r in c.lost, e, at, c2.entries[r], Apply(c, e, r, at).entries[r]);
    AlikeFrames(s, r in c.lost, e, at, c2.entries[r], Apply(c, e, r, at).entries[r]);
  }

  lemma NotDiscarded(c: Core, e: ExecutionEvent, r: ExecutionRef, at: int)
    requires r in Apply(c, e, r, at).entries
    ensures !Discarded(c, e, r)
  {
  }

  lemma ApplyIs(c: Core, e: ExecutionEvent, r: ExecutionRef, at: int)
    requires !Discarded(c, e, r) && r in Admit(c, e, r, at).entries
    ensures var c3 := ApplyToState(Admit(c, e, r, at), e, r, at);
            Apply(c, e, r, at) == c3 || Apply(c, e, r, at) == Evict(c3, r.connection)
  {
    hide ApplyToState;
    hide Evict;
    hide Admit;
  }

  lemma AdmittedStrips(c: Core, e: ExecutionEvent, r: ExecutionRef, at: int)
    ensures !(e.Preview? && r !in c.entries) && Strips(Admit(c, e, r, at), e, r) ==> Strips(c, e, r)
  {
  }

  lemma Landed(c2: Core, c3: Core, c4: Core, r: ExecutionRef)
    requires Rests(c2, c3, r) && (c4 == c3 || RestsWhole(c3, c4, r)) && r in c4.entries
    ensures r in c2.entries && Alike(c2.entries[r], c4.entries[r])
    ensures (r in c4.lost <==> r in c2.lost) && (r in c4.unconfirmed <==> r in c2.unconfirmed)
    ensures RestsWhole(c2, c3, r) ==> c4.entries[r] == c2.entries[r]
  {
  }

  lemma AlikeFrames(s: ExecutionState, lost: bool, e: ExecutionEvent, at: int, m: ExecutionState, s': ExecutionState)
    requires FramesEffect(s, lost, e, at, m) && Alike(m, s')
    ensures FramesEffect(s, lost, e, at, s') || Bare(s')
  {
    hide FramesEffect;
  }

  /** An event leaves every other entry alike, if that stays, and on another connection whole. */
  lemma ApplySparesOthers(c: Core, e: ExecutionEvent, x: ExecutionRef, at: int, r: ExecutionRef)
    requires Shape(c) && x != r
    ensures Rests(c, Apply(c, e, x, at), r)
    ensures r.connection != x.connection ==> RestsWhole(c, Apply(c, e, x, at), r)
  {
    hide *;
    if Discarded(c, e, x) {
      DiscardedChangesNothing(c, e, x, at);
      Itself(c, r);
    } else {
      var c1 := Admit(c, e, x, at);
      AdmitLemma(c, e, x, at, x.connection);
      AdmitRests(c, e, x, at, r);
      var c2, c3 := AfterEvent(c1, e, x, at), ApplyToState(c1, e, x, at);
      AfterEventEffect(c1, e, x, at, r);
      PassesRest(c1, e, x, at, r);
      EvictRests(c3, x.connection, r);
      ApplyIs(c, e, x, at);
      WholeRests(c, c1, r);
      WholeRests(c1, c2, r);
      WholeRests(c3, Evict(c3, x.connection), r);
      RestsBoth(c, c1, c2, r);
      RestsBoth(c, c2, c3, r);
      RestsBoth(c, c3, Evict(c3, x.connection), r);
    }
  }

  lemma DiscardedChangesNothing(c: Core, e: ExecutionEvent, x: ExecutionRef, at: int)
    requires Discarded(c, e, x)
    ensures Apply(c, e, x, at) == c
  {
  }

  // ---------------------------------------------------------------------
  // The other operations

  /**
   * A registered execution is there, vouched for: a new one queued and otherwise blank, a known one
   * with what is told anew.
   */
  lemma RegisterEffect(c: Core, r: ExecutionRef, artifact: Id, now: int, jobRef: Option<Id>, sourceDocument: Option<Id>)
    requires Shape(c)
    ensures var c' := Register(c, r, artifact, now, jobRef, sourceDocument);
            && r in c'.entries && r !in c'.unconfirmed && (r in c'.lost <==> r in c.lost)
            && var s' := c'.entries[r];
            && s'.artifact == Some(artifact)
            && (if r in c.entries then
                  var s := c.entries[r];
                  && CarriedField(jobRef, s.jobRef, s'.jobRef)
                  && CarriedField(sourceDocument, s.sourceDocument, s'.sourceDocument)
                  && s' == s.(artifact := s'.artifact, jobRef := s'.jobRef, sourceDocument := s'.sourceDocument)
                else
                  && s'.jobRef == jobRef && s'.sourceDocument == sourceDocument
                  && Blank(s'.(artifact := None, jobRef := None, sourceDocument := None), r, now))
    ensures forall x :: x != r ==> RestsWhole(c, Register(c, r, artifact, now, jobRef, sourceDocument), x)
  {
    if r in c.entries {
      EntryIsGood(c, r);
      hide Shape;
    } else {
      var s := NewState(r, Some(artifact), now).(jobRef := jobRef, sourceDocument := sourceDocument);
      AddedStays(c, s);
      hide Shape;
      hide Evict;
    }
  }

  /** A new entry that is not unconfirmed: whether or not it stays, the others rest, and it stays unless it is over. */
  lemma AddedStays(c: Core, s: ExecutionState)
    requires Shape(c) && s.ref !in c.entries && GoodEntry(s, s.ref, false) && Bare(s)
    ensures var r := s.ref;
            var c' := Evict(Put(c.(tombs := Without(c.tombs, r), unconfirmed := c.unconfirmed - {r},
              lost := c.lost - {r}), s),
                            r.connection);
            && (!IsTerminalStatus(s.status) ==> r in c'.entries)
            && (r in c'.entries ==> c'.entries[r] == s && r !in c'.unconfirmed) && r !in c'.lost
            && forall x :: x != r ==> RestsWhole(c, c', x)
  {
    hide Evict;
    hide Within;
    hide Capped;
    hide GoodEntry;
    hide Shape;
    hide Alike;
    var r := s.ref;
    AddedIs(c, s);
    AddedShape(c, s, false);
    var c1 := Added(c, s, false);
    EvictSteady(c1, r.connection, r);
    EvictRests(c1, r.connection, r);
    AddedThere(c, s);
    forall x | x != r
      ensures RestsWhole(c, Evict(c1, r.connection), x)
    {
      EvictRests(c1, r.connection, x);
    }
  }

  lemma AddedIs(c: Core, s: ExecutionState)
    requires Shape(c) && s.ref !in c.entries
    ensures Put(c.(tombs := Without(c.tombs, s.ref), unconfirmed := c.unconfirmed - {s.ref}, lost := c.lost - {s.ref}),
            s)
            == Added(c, s, false)
  {
    assert c.lost - {s.ref} == c.lost && c.unconfirmed - {s.ref} == c.unconfirmed;
  }

  lemma AddedThere(c: Core, s: ExecutionState)
    requires Shape(c) && s.ref !in c.entries && GoodEntry(s, s.ref, false)
    ensures var r, c1 := s.ref, Added(c, s, false);
            && r in c1.entries && c1.entries[r] == s && r !in c1.lost && r !in c1.unconfirmed
            && (!IsTerminalStatus(s.status) ==> !Evictable(c1, r))
            && r !in Evict(c1, r.connection).lost
            && forall x :: x != r ==> RestsWhole(c, c1, x)
  {
    hide Evict;
    hide Within;
    hide Capped;
    hide GoodEntry;
    AddedShape(c, s, false);
    EvictLemma(Added(c, s, false), s.ref.connection, s.ref.connection);
    EvictRests(Added(c, s, false), s.ref.connection, s.ref);
  }

  /** A proven result of an unknown execution is adopted as it is; a known one is left alone. */
  lemma RestoreEffect(c: Core, p: ProvenResult)
    requires Shape(c)
    ensures var c', r := RestoreCompleted(c, p), p.ref;
            && (r in c.entries ==> c' == c)
            && (r !in c.entries && r in c'.entries ==>
                  var s' := c'.entries[r];
                  && s'.status == CompletedStatus && s'.queuedAt == p.queuedAt && s'.endedAt == Some(p.endedAt)
                  && s'.artifact == Some(p.artifact) && s'.jobRef == Some(p.jobRef)
                  && s'.sourceDocument == Some(p.sourceDocument) && s'.submittedBy == p.submittedBy
                  && s'.nodes == p.nodes && s'.outputs == p.outputs && s'.artifacts == p.artifacts
                     && s'.artifactsHydrated
                  && Blank(s'.(status := QueuedStatus, endedAt := None, artifact := None, jobRef := None,
                               sourceDocument := None, submittedBy := None, nodes := map[], outputs := map[],
                               artifacts := [], artifactsHydrated := false), r, p.queuedAt)
                  && r !in c'.unconfirmed && r !in c'.lost)
            && forall x :: x != r ==> RestsWhole(c, c', x)
  {
    if p.ref !in c.entries {
      AddedStays(c, RestoredState(p));
    }
    hide Shape;
    hide Evict;
  }

  /** A loss verdict on a run that is not over interrupts it provisionally, with a warning; any other is ignored. */
  lemma MarkLostEffect(c: Core, r: ExecutionRef, now: int)
    requires Shape(c)
    ensures var c' := MarkLost(c, r, now);
            if r !in c.entries || (c.entries[r].status != QueuedStatus && c.entries[r].status != RunningStatus)
              then c' == c
            else
              && r in c'.entries && c'.lost == c.lost + {r} && c'.unconfirmed == c.unconfirmed
              && var s, s' := c.entries[r], c'.entries[r];
              && s'.status == InterruptedStatus && s'.endedAt == Some(now) && s'.errors == s.errors + [LostDiagnostic]
              && Alike(s.(status := s'.status, endedAt := s'.endedAt, errors := s'.errors, previewRings := None), s')
              && forall x :: x != r ==> Rests(c, c', x)
  {
    hide GoodKeys;
    hide OverBudget;
    if r in c.entries {
      EntryIsGood(c, r);
    }
    hide GoodEntry;
  }

  /** Hydrating touches the one field of the one entry. */
  lemma HydrateEffect(c: Core, r: ExecutionRef, outputs: map<Id, map<Id, Id>>, artifacts: seq<Id>, submitter: Id)
    requires Shape(c)
    ensures r !in c.entries ==> HydrateOutputs(c, r, outputs) == c && HydrateArtifacts(c, r, artifacts) == c
                                && HydrateSubmittedBy(c, r, submitter) == c
    ensures r in c.entries ==>
              && HydrateOutputs(c, r, outputs) ==
                 c.(entries := c.entries[r := c.entries[r].(outputs := MergeOutputs(c.entries[r].outputs, outputs))])
              && HydrateArtifacts(c, r, artifacts) ==
                 c.(entries := c.entries[r := c.entries[r].(artifacts := artifacts, artifactsHydrated := true)])
              && HydrateSubmittedBy(c, r, submitter) ==
                 c.(entries := c.entries[r := c.entries[r].(submittedBy := Some(submitter))])
  {
    if r in c.entries {
      EntryIsGood(c, r);
    }
    hide Shape;
    hide GoodEntry;
    hide MergeOutputs;
  }

  /** How often an execution is pinned. */
  ghost function Pins(c: Core, r: ExecutionRef): nat {
    if r in c.retained then c.retained[r] else 0
  }

  /** Every pin counts: a release takes one back, and only the last one lets entries of the connection go. */
  lemma PinEffect(c: Core, r: ExecutionRef, x: ExecutionRef)
    requires Shape(c)
    ensures Pins(Retain(c, r), x) == Pins(c, x) + if x == r then 1 else 0
    ensures Pins(Release(c, r), x) == Pins(c, x) - if x == r && Pins(c, r) > 0 then 1 else 0
    ensures RestsWhole(c, Retain(c, r), x) && RestsWhole(c, Release(c, r), x)
    ensures x in c.entries && (x.connection != r.connection || Pins(c, r) != 1) ==> x in Release(c, r).entries
  {
    hide Evict;
    hide Shape;
    hide StripPreviewFrames;
    PinsCount(c, r);
    if r in c.retained && c.retained[r] == 1 {
      UnpinShape(c, r);
      var c1 := c.(retained := c.retained - {r});
      EvictSteady(c1, r.connection, x);
      EvictRests(c1, r.connection, x);
      VictimsOf(c1, r.connection, x);
    }
  }

  lemma PinsCount(c: Core, r: ExecutionRef)
    requires Shape(c)
    ensures r in c.retained ==> c.retained[r] >= 1
  {
    hide GoodEntries;
    hide Distinct;
  }

  lemma VictimsOf(c: Core, connection: Id, x: ExecutionRef)
    requires Shape(c)
    ensures x in c.entries && x.connection != connection ==> x in Evict(c, connection).entries
  {
    VictimsLemma(c, connection);
    EvictAllLemma(c, Victims(c, connection), connection, connection);
    hide Victims;
    hide EvictAll;
    hide Shape;
    hide Distinct;
    hide Within;
    hide Count;
    hide Evictable;
  }
}
