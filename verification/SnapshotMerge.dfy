/**
 * Merging a fetched per-node snapshot into live node states without regressing or
 * impoverishing anything the live events already told.
 */
module SnapshotMerge {
  import opened Identity

  datatype NodeRunState = Pending | Running | Done | Failed | Cached | Skipped

  /** `details` holds the remaining optional fields that are present. */
  datatype NodeProgress = NodeProgress(
    state: NodeRunState,
    executionArm: Option<Id>,
    worker: Option<Id>,
    provider: Option<Id>,
    pack: Option<Id>,
    outputs: Option<map<Id, Id>>,
    details: map<Id, Id>)

  predicate TerminalNode(s: NodeRunState) {
    s == Done || s == Failed || s == Cached || s == Skipped
  }

  function Prefer<T>(a: Option<T>, b: Option<T>): Option<T> {
    if a.Some? then a else b
  }

  /** Placement details a later report omits are carried over from the previous one. */
  function PreserveExecutionDetails(progress: NodeProgress, previous: Option<NodeProgress>): NodeProgress {
    if previous.None? || (progress.executionArm.Some? && progress.provider.Some? && progress.pack.Some?
      && progress.worker.Some?)
    then progress
    else progress.(
      executionArm := Prefer(progress.executionArm, previous.value.executionArm),
      worker := Prefer(progress.worker, previous.value.worker),
      provider := Prefer(progress.provider, previous.value.provider),
      pack := Prefer(progress.pack, previous.value.pack))
  }

  function OutputsOr(outputs: Option<map<Id, Id>>): map<Id, Id> {
    if outputs.Some? then outputs.value else map[]
  }

  /** Field by field, the live value where there is one and the snapshot's otherwise. */
  function FillGaps(snapshot: NodeProgress, live: NodeProgress): NodeProgress {
    NodeProgress(
      live.state,
      Prefer(live.executionArm, snapshot.executionArm),
      Prefer(live.worker, snapshot.worker),
      Prefer(live.provider, snapshot.provider),
      Prefer(live.pack, snapshot.pack),
      if snapshot.outputs.Some? || live.outputs.Some? then Some(OutputsOr(snapshot.outputs) + OutputsOr(live.outputs))
      else None,
      snapshot.details + live.details)
  }

  /** One node: gap fill, upgrade to terminal, enrich an equal terminal state, or keep the live state. */
  function MergeNode(live: Option<NodeProgress>, snapshot: NodeProgress): NodeProgress {
    if live.None? then snapshot
    else if !TerminalNode(live.value.state) && TerminalNode(snapshot.state)
      then PreserveExecutionDetails(snapshot, live)
    else if TerminalNode(live.value.state) && TerminalNode(snapshot.state) && live.value.state == snapshot.state
    then FillGaps(snapshot, live.value)
    else live.value
  }

  function MergeSnapshot(current: map<Id, NodeProgress>, incoming: map<Id, NodeProgress>): map<Id, NodeProgress> {
    map n | n in current.Keys + incoming.Keys ::
      if n in incoming then MergeNode(Lookup(current, n), incoming[n]) else current[n]
  }

  method MergeSnapshotNodes(current: map<Id, NodeProgress>, incoming: map<Id, NodeProgress>)
    returns (out: map<Id, NodeProgress>)
    ensures out == MergeSnapshot(current, incoming)
  {
    out := current;
    var rest := incoming.Keys;
    ghost var done: map<Id, NodeProgress> := map[];
    assert current == MergeSnapshot(current, done);
    hide *;
    while rest != {}
      invariant rest <= incoming.Keys && done.Keys == incoming.Keys - rest
      invariant forall n :: n in done ==> done[n] == incoming[n]
      invariant out == MergeSnapshot(current, done)
      decreases |rest|
    {
      var nodeId :| nodeId in rest;
      rest := rest - {nodeId};
      MergeStep(current, done, nodeId, incoming[nodeId]);
      out := MergeSnapshotNode(out, nodeId, incoming[nodeId]);
      done := done[nodeId := incoming[nodeId]];
    }
    assert done == incoming;
  }

  lemma MergeStep(current: map<Id, NodeProgress>, done: map<Id, NodeProgress>, n: Id, p: NodeProgress)
    requires n !in done
    ensures var before := MergeSnapshot(current, done);
            MergeSnapshot(current, done[n := p]) == before[n := MergeNode(Lookup(before, n), p)]
  {
    hide MergeNode;
    assert Lookup(MergeSnapshot(current, done), n) == Lookup(current, n);
  }

  /** The body of the merge loop. */
  method MergeSnapshotNode(nodes: map<Id, NodeProgress>, nodeId: Id, progress: NodeProgress)
    returns (out: map<Id, NodeProgress>)
    ensures out == nodes[nodeId := MergeNode(Lookup(nodes, nodeId), progress)]
  {
    if nodeId !in nodes {
      return nodes[nodeId := progress];
    }
    var live := nodes[nodeId];
    var liveTerminal, snapshotTerminal := TerminalNode(live.state), TerminalNode(progress.state);
    if !liveTerminal && snapshotTerminal {
      return nodes[nodeId := PreserveExecutionDetails(progress, Some(live))];
    }
    if liveTerminal && snapshotTerminal && live.state == progress.state {
      return nodes[nodeId := FillGaps(progress, live)];
    }
    assert nodes == nodes[nodeId := live];
    return nodes;
  }

  /** `b` says everything `a` says. */
  predicate Richer(a: NodeProgress, b: NodeProgress) {
    && (a.executionArm.Some? ==> b.executionArm == a.executionArm)
    && (a.worker.Some? ==> b.worker == a.worker)
    && (a.provider.Some? ==> b.provider == a.provider)
    && (a.pack.Some? ==> b.pack == a.pack)
    && (a.outputs.Some? ==> b.outputs.Some? && forall o ::
       o in a.outputs.value ==> o in b.outputs.value && b.outputs.value[o] == a.outputs.value[o])
    && (forall f :: f in a.details ==> f in b.details && b.details[f] == a.details[f])
  }

  /**
   * A snapshot never regresses: a node's terminal state stays and keeps everything reported
   * live, a node that was not terminal only moves to the snapshot's terminal state, and no
   * node disappears.
   */
  lemma SnapshotNeverRegresses(current: map<Id, NodeProgress>, incoming: map<Id, NodeProgress>, n: Id)
    requires n in current
    ensures n in MergeSnapshot(current, incoming)
    ensures var after := MergeSnapshot(current, incoming)[n];
            if TerminalNode(current[n].state) then after.state == current[n].state && Richer(current[n], after)
            else after == current[n]
                 || (n in incoming && TerminalNode(after.state) && after.state == incoming[n].state
                    && Richer(incoming[n], after))
  {
    if n in incoming {
      var live := current[n];
      if TerminalNode(live.state) && TerminalNode(incoming[n].state) && live.state == incoming[n].state {
        FillGapsRicher(incoming[n], live);
      }
    }
  }

  lemma FillGapsRicher(snapshot: NodeProgress, live: NodeProgress)
    ensures Richer(live, FillGaps(snapshot, live))
  {
  }

  /** Replaying the same snapshot changes nothing more. */
  lemma SnapshotIdempotent(current: map<Id, NodeProgress>, incoming: map<Id, NodeProgress>)
    ensures MergeSnapshot(MergeSnapshot(current, incoming), incoming) == MergeSnapshot(current, incoming)
  {
    var once := MergeSnapshot(current, incoming);
    forall n | n in incoming
      ensures MergeNode(Some(once[n]), incoming[n]) == once[n]
    {
      MergeTwice(Lookup(current, n), incoming[n]);
    }
  }

  lemma MergeTwice(live: Option<NodeProgress>, snapshot: NodeProgress)
    ensures MergeNode(Some(MergeNode(live, snapshot)), snapshot) == MergeNode(live, snapshot)
  {
    var once := MergeNode(live, snapshot);
    if TerminalNode(once.state) && TerminalNode(snapshot.state) && once.state == snapshot.state {
      assert OutputsOr(snapshot.outputs) + OutputsOr(once.outputs) == OutputsOr(once.outputs);
      assert snapshot.details + once.details == once.details;
    }
  }
}
