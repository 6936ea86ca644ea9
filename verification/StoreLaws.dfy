/** What single operations of the execution store owe their callers, beyond the invariant they all keep. */
module StoreLaws {
  import opened Identity
  import opened Ordered
  import opened ExecutionStates
  import ExecutionLog
  import opened StoreCore
  import opened StoreInvariant

  /** Hydrated outputs fill gaps only: what arrived live stays, and everything known to either side is there. */
  lemma HydrationKeepsLive(live: map<Id, map<Id, Id>>, outputs: map<Id, map<Id, Id>>, n: Id)
    ensures n in MergeOutputs(live, outputs) <==> n in live || n in outputs
    ensures n in live ==> forall o ::
            o in live[n] ==> o in MergeOutputs(live, outputs)[n] && MergeOutputs(live, outputs)[n][o] == live[n][o]
    ensures n in outputs ==> forall o :: o in outputs[n] && !(n in live && o in live[n]) ==>
                               o in MergeOutputs(live, outputs)[n] && MergeOutputs(live, outputs)[n][o] == outputs[n][o]
    ensures n in MergeOutputs(live, outputs) ==>
              forall o ::
                o in MergeOutputs(live, outputs)[n] ==> (n in live && o in live[n]) || (n in outputs && o in outputs[n])
  {
    HydratedNode(live, outputs, n);
    hide MergeOutputs;
  }

  lemma HydratedNode(live: map<Id, map<Id, Id>>, outputs: map<Id, map<Id, Id>>, n: Id)
    ensures n in MergeOutputs(live, outputs) <==> n in live || n in outputs
    ensures n in MergeOutputs(live, outputs) ==>
              MergeOutputs(live, outputs)[n] ==
                (if n in outputs then outputs[n] else map[]) + (if n in live then live[n] else map[])
  {
    if n in live && n !in outputs {
      assert map[] + live[n] == live[n];
    }
  }

  /** Hydrating again changes nothing more. */
  lemma HydrationIdempotent(live: map<Id, map<Id, Id>>, outputs: map<Id, map<Id, Id>>)
    ensures MergeOutputs(MergeOutputs(live, outputs), outputs) == MergeOutputs(live, outputs)
  {
    var once := MergeOutputs(live, outputs);
    var twice := MergeOutputs(once, outputs);
    forall n
      ensures n in twice <==> n in once
      ensures n in once ==> twice[n] == once[n]
    {
      HydratedNode(live, outputs, n);
      HydratedNode(once, outputs, n);
      if n in once && n in outputs {
        assert outputs[n] + once[n] == once[n];
      }
      hide MergeOutputs;
    }
    hide MergeOutputs;
  }

  /** The operations that may bring a key back: a run start, a submission, or a proven result. */
  predicate Revives(op: Op, r: ExecutionRef) {
    (op.RegisterOp? && op.ref == r) || (op.RestoreOp? && op.proven.ref == r)
      || (op.ApplyOp? && op.ref == r && op.event.Started?)
  }

  /** Late chatter never resurrects an evicted run while its tombstone stands. */
  lemma NeverResurrected(c: Core, op: Op, r: ExecutionRef)
    requires Shape(c) && r in c.tombs && !Revives(op, r)
    ensures r !in Step(c, op).entries
  {
    hide Shape;
    hide Apply;
    hide Register;
    hide RestoreCompleted;
    hide Release;
    TombIsAbsent(c, r);
    match op
    case ApplyOp(e, x, at) => ApplyStaysAbsent(c, e, x, at, r);
    case RegisterOp(x, artifact, now, jobRef, sourceDocument) => AdmissionStaysAbsent(c, op, r);
    case RestoreOp(p) => AdmissionStaysAbsent(c, op, r);
    case ReleaseOp(x) => ReleaseStaysAbsent(c, x, r);
    case _ => OthersStayAbsent(c, op, r);
  }

  lemma TombIsAbsent(c: Core, r: ExecutionRef)
    requires Shape(c) && r in c.tombs
    ensures r !in c.entries
  {
    hide GoodEntries;
  }

  lemma OthersStayAbsent(c: Core, op: Op, r: ExecutionRef)
    requires Shape(c) && r !in c.entries
    requires op.QueueOp? || op.OutputsOp? || op.ArtifactsOp? || op.SubmittedByOp? || op.MarkLostOp? || op.RetainOp?
    ensures r !in Step(c, op).entries
  {
    hide Shape;
    hide GoodEntry;
    hide OverBudget;
    hide MergeOutputs;
    hide Apply;
    hide Register;
    hide RestoreCompleted;
    hide Release;
    if !op.QueueOp? && op.ref in c.entries {
      EntryIsGood(c, op.ref);
    }
  }

  lemma AdmissionStaysAbsent(c: Core, op: Op, r: ExecutionRef)
    requires Shape(c) && r !in c.entries && (op.RegisterOp? || op.RestoreOp?) && !Revives(op, r)
    ensures r !in Step(c, op).entries
  {
    hide Shape;
    hide GoodEntry;
    hide Evict;
    hide Apply;
    hide Release;
    var x := if op.RegisterOp? then op.ref else op.proven.ref;
    if x in c.entries {
      EntryIsGood(c, x);
    } else {
      var s := if op.RegisterOp?
        then NewState(op.ref, Some(op.artifact), op.now).(jobRef := op.jobRef, sourceDocument := op.sourceDocument)
               else RestoredState(op.proven);
      AddedStaysAbsent(c, s, r);
    }
  }

  lemma AddedStaysAbsent(c: Core, s: ExecutionState, r: ExecutionRef)
    requires Shape(c) && r !in c.entries && s.ref !in c.entries && s.ref != r && s.status != InterruptedStatus
    requires s.errors == [] && s.previewRings.None? && s.log == ExecutionLog.Log([], 0)
    ensures r !in Evict(Put(c.(tombs := Without(c.tombs, s.ref), unconfirmed := c.unconfirmed - {s.ref},
            lost := c.lost - {s.ref}), s), s.ref.connection).entries
  {
    assert c.lost - {s.ref} == c.lost && c.unconfirmed - {s.ref} == c.unconfirmed;
    AddedShape(c, s, false);
    hide Evict;
    EvictSteady(Added(c, s, false), s.ref.connection, r);
  }

  lemma ReleaseStaysAbsent(c: Core, x: ExecutionRef, r: ExecutionRef)
    requires Shape(c) && r !in c.entries
    ensures r !in Release(c, x).entries
  {
    hide Shape;
    hide Evict;
    if x in c.retained {
      UnpinShape(c, x);
      EvictSteady(c.(retained := c.retained - {x}), x.connection, r);
    }
  }

  lemma ApplyStaysAbsent(c: Core, e: ExecutionEvent, x: ExecutionRef, at: int, r: ExecutionRef)
    requires Shape(c) && r !in c.entries && r in c.tombs && !(x == r && e.Started?)
    ensures r !in Apply(c, e, x, at).entries
  {
    hide Shape;
    hide ApplyToState;
    hide Evict;
    if !Discarded(c, e, x) {
      var c1 := Admit(c, e, x, at);
      AdmitLemma(c, e, x, at, x.connection);
      assert r !in c1.entries;
      ApplyToStateLemma(c1, e, x, at, x.connection);
      ApplyToStateStaysAbsent(c1, e, x, at, r);
      EvictSteady(ApplyToState(c1, e, x, at), x.connection, r);
    }
  }

  lemma ApplyToStateStaysAbsent(c: Core, e: ExecutionEvent, x: ExecutionRef, at: int, r: ExecutionRef)
    requires Shape(c) && x in c.entries && r !in c.entries
    ensures r !in ApplyToState(c, e, x, at).entries
  {
    hide Shape;
    hide Next;
    hide GoodEntry;
    hide Enforce;
    hide Evict;
    if Next(c.entries[x], e, at, x in c.lost).Some? {
      var c1 := AfterNext(c, e, x, at);
      AfterNextLemma(c, e, x, at, x.connection);
      EntryIsGood(c, x);
      NextGood(c.entries[x], x, e, at, x in c.lost);
      GoodRef(Next(c.entries[x], e, at, x in c.lost).value, x, x in c.lost && !Settles(e));
      EnforceSteady(c1, x.connection, r);
      EnforceLemma(c1, x.connection, x.connection);
      EvictSteady(Enforce(c1, x.connection), x.connection, r);
    }
  }

  /** A key first seen through anything but a run start is admitted, if it stays, unconfirmed. */
  lemma JoinsUnconfirmed(c: Core, e: ExecutionEvent, r: ExecutionRef, at: int)
    requires Shape(c) && r !in c.entries && !e.Started?
    ensures r in Apply(c, e, r, at).entries ==> r in Apply(c, e, r, at).unconfirmed && r !in c.tombs
  {
    hide Shape;
    hide ApplyToState;
    hide Evict;
    if !Discarded(c, e, r) {
      var c1 := Admit(c, e, r, at);
      AdmitLemma(c, e, r, at, r.connection);
      ApplyToStateLemma(c1, e, r, at, r.connection);
      ApplyToStateUnconfirmed(c1, e, r, at);
      EvictKeepsUnconfirmed(ApplyToState(c1, e, r, at), r.connection, r);
      EvictSteady(ApplyToState(c1, e, r, at), r.connection, r);
    }
  }

  lemma ApplyToStateUnconfirmed(c: Core, e: ExecutionEvent, r: ExecutionRef, at: int)
    requires Shape(c) && r in c.entries && r in c.unconfirmed
    ensures r in ApplyToState(c, e, r, at).entries ==> r in ApplyToState(c, e, r, at).unconfirmed
  {
    hide Shape;
    hide Next;
    hide GoodEntry;
    hide Evict;
    hide OverBudget;
    if Next(c.entries[r], e, at, r in c.lost).Some? {
      var c1 := AfterNext(c, e, r, at);
      AfterNextLemma(c, e, r, at, r.connection);
      EnforceLemma(c1, r.connection, r.connection);
      EvictKeepsUnconfirmed(Enforce(c1, r.connection), r.connection, r);
    }
  }

  lemma EvictKeepsUnconfirmed(c: Core, connection: Id, r: ExecutionRef)
    requires Shape(c)
    ensures r in Evict(c, connection).entries && r in c.unconfirmed ==> r in Evict(c, connection).unconfirmed
  {
    VictimsLemma(c, connection);
    hide Victims;
    hide EvictAll;
    hide Shape;
    hide Distinct;
    hide Within;
    hide Count;
    EvictAllLemma(c, Victims(c, connection), connection, connection);
  }

  // ---------------------------------------------------------------------
  // Frames stand where their addresses say

  ghost predicate StillsSound(previews: Stills) {
    forall n, k :: n in previews && k in previews[n] ==> previews[n][k].source == Some(n) && previews[n][k].stream == k
  }

  ghost predicate RingSound(n: Id, k: Option<Id>, ring: PreviewRing) {
    forall i :: i in ring.frames ==>
      && ring.frames[i].source == Some(n) && ring.frames[i].stream == k
      && ring.frames[i].frameIndex == Some(i) && ring.frames[i].frameCount == Some(ring.frameCount)
  }

  ghost predicate RingsSound(rings: Rings) {
    forall n, k :: n in rings && k in rings[n] ==> RingSound(n, k, rings[n][k])
  }

  /** Every still and every ring slot holds a frame addressed to it, and a ring only frames of its own length. */
  ghost predicate FramesSound(s: ExecutionState) {
    StillsSound(s.previews) && RingsSound(RingsOf(s)) && (s.lastPreview.Some? ==> s.lastPreview.value.source.None?)
  }

  lemma FrameRingsSound(s: ExecutionState, node: Id, frame: PreviewData)
    requires RingsSound(RingsOf(s)) && frame.source == Some(node)
    ensures FrameRings(s, node, frame).Some? ==> RingsSound(FrameRings(s, node, frame).value)
  {
    var nodeRings := At(RingsOf(s), node);
    assert forall k :: k in nodeRings ==> RingSound(node, k, nodeRings[k]);
    hide IsTerminalStatus;
  }

  lemma PreviewSound(s: ExecutionState, frame: PreviewData)
    requires FramesSound(s)
    ensures FramesSound(WithPreview(s, frame))
  {
    if frame.source.Some? {
      FrameRingsSound(s, frame.source.value, frame);
    }
    hide FrameRings;
    hide RingSound;
  }

  /** No event misplaces a frame. */
  lemma FramesStaySound(s: ExecutionState, e: ExecutionEvent, at: int, lost: bool)
    requires FramesSound(s) && Next(s, e, at, lost).Some?
    ensures FramesSound(Next(s, e, at, lost).value)
  {
    hide WithPreview;
    hide StillsSound;
    hide RingSound;
    hide ExecutionLog.Deliver;
    assert RingsSound(map[]);
    if e.Preview? {
      PreviewSound(s, e.frame.(timestamp := at));
    }
  }
}
