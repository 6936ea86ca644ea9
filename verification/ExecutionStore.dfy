/**
 * The execution store itself: a class whose methods update its maps and key sets in place, each
 * proved to take its contents where the operation of `StoreCore` says.
 */
module ExecutionStores {
  import opened Identity
  import opened Ordered
  import opened ExecutionLog
  import opened SnapshotMerge
  import opened ExecutionStates
  import Spec = StoreCore
  import StoreInvariant

  class ExecutionStore {
    var entries: map<ExecutionRef, ExecutionState>
    /** The keys of `entries` in insertion order. */
    var order: seq<ExecutionRef>
    var provisionallyLost: set<ExecutionRef>
    /** Pin counts. */
    var retained: map<ExecutionRef, nat>
    /** Tombstones in insertion order. */
    var recentlyEvicted: seq<ExecutionRef>
    var unconfirmed: set<ExecutionRef>
    var queueRemaining: map<Id, nat>

    function Contents(): Spec.Core
      reads this
    {
      Spec.Core(entries, order, provisionallyLost, retained, recentlyEvicted, unconfirmed, queueRemaining)
    }

    ghost predicate Valid()
      reads this
    {
      StoreInvariant.Shape(Contents())
    }

    constructor ()
      ensures Contents() == Spec.EMPTY && Valid() && StoreInvariant.Inv(Contents())
    {
      entries, order, provisionallyLost, retained := map[], [], {}, map[];
      recentlyEvicted, unconfirmed, queueRemaining := [], {}, map[];
      new;
      StoreInvariant.EmptyInvariant();
    }

    function Get(r: ExecutionRef): Option<ExecutionState>
      reads this
    {
      Lookup(entries, r)
    }

    predicate IsProvisionallyLost(r: ExecutionRef)
      reads this
    {
      r in provisionallyLost
    }

    predicate IsUnconfirmed(r: ExecutionRef)
      reads this
    {
      r in unconfirmed
    }

    predicate IsAuthoritativeTerminal(s: ExecutionState)
      reads this
    {
      IsTerminalStatus(s.status) && s.ref !in provisionallyLost
    }

    method Put(s: ExecutionState)
      modifies this`entries, this`order
      ensures Contents() == Spec.Put(old(Contents()), s)
    {
      if s.ref !in entries {
        order := order + [s.ref];
      }
      entries := entries[s.ref := s];
    }

    /** Strips frames of the older budgeted entries once their connection's bytes exceed the budget. */
    method EnforcePreviewBudget(connection: Id)
      requires Valid()
      modifies this`entries
      ensures Contents() == Spec.Enforce(old(Contents()), connection)
    {
      var c := Contents();
      var budgeted := Spec.NewestFirst(c, connection);
      BudgetedMembers(c, connection);
      PartStart(c, connection);
      PartDone(c, connection);
      var total: nat := 0;
      hide StoreInvariant.Shape;
      hide Spec.NewestFirst;
      hide Spec.WeightOf;
      hide Spec.Weight;
      hide Spec.Enforce;
      hide Part;
      hide SumBy;
      for index := 0 to |budgeted|
        invariant Contents() == c.(entries := Part(c, connection, index))
        invariant total == SumBy(budgeted[..index], Spec.WeightOf(c, connection))
      {
        PartStep(c, connection, index);
        total := StripBeyond(index, c.entries[budgeted[index]], budgeted[index], total);
      }
    }

    /** One turn of the budget loop, for the entry at `index` of the newest-first list. */
    method StripBeyond(index: nat, state: ExecutionState, key: ExecutionRef, total: nat) returns (total': nat)
      modifies this`entries
      ensures total' == total + PreviewBytes(state)
      ensures entries == if index > 0 && total' > Spec.TERMINAL_PREVIEW_BYTE_BUDGET
              then old(entries)[key := StripPreviewFrames(state)]
                         else old(entries)
    {
      var bytes := PreviewBytesOf(state);
      total' := total + bytes;
      if index == 0 || total' <= Spec.TERMINAL_PREVIEW_BYTE_BUDGET {
        return;
      }
      entries := entries[key := StripPreviewFrames(state)];
    }

    method Tombstone(r: ExecutionRef)
      modifies this`recentlyEvicted
      ensures recentlyEvicted == Spec.Tombstone(old(recentlyEvicted), r)
    {
      if r !in recentlyEvicted {
        recentlyEvicted := recentlyEvicted + [r];
      }
      if |recentlyEvicted| <= Spec.EXECUTION_ENTRY_CAP * 2 {
        return;
      }
      recentlyEvicted := recentlyEvicted[1..];
    }

    /** Evicts the oldest evictable entries beyond the cap. */
    method EvictExecutionEntries(connection: Id)
      requires Valid()
      modifies this
      ensures Contents() == Spec.Evict(old(Contents()), connection)
    {
      var c := Contents();
      VictimsAre(c, connection);
      hide *;
      var excess := Spec.Count(c, connection) - Spec.EXECUTION_ENTRY_CAP;
      if excess <= 0 {
        return;
      }
      EvictFirst(c, Spec.OldestFirst(c, connection), excess);
    }

    /** Evicts the listed entries in order until the excess is gone. */
    method EvictFirst(ghost c: Spec.Core, evictable: seq<ExecutionRef>, most: int)
      requires most > 0 && Contents() == c
      modifies this
      ensures Contents() == EvictedUpTo(c, evictable, if most < |evictable| then most else |evictable|)
    {
      EvictNone(c, evictable);
      hide *;
      var excess, i := most, 0;
      while i < |evictable| && excess > 0
        invariant 0 <= i <= |evictable| && excess == most - i >= 0
        invariant Contents() == EvictedUpTo(c, evictable, i)
      {
        EvictAllStep(c, evictable, i);
        EvictEntry(evictable[i]);
        excess := excess - 1;
        i := i + 1;
      }
    }

    method EvictEntry(key: ExecutionRef)
      modifies this
      ensures Contents() == Spec.EvictOne(old(Contents()), key)
    {
      entries := entries - {key};
      order := Without(order, key);
      unconfirmed := unconfirmed - {key};
      provisionallyLost := provisionallyLost - {key};
      Tombstone(key);
    }

    /** Enters a fresh entry; it inherits no loss verdict and no tombstone left by a predecessor of its key. */
    method Enter(s: ExecutionState)
      requires Valid() && s.ref !in entries && StoreInvariant.GoodEntry(s, s.ref, false)
      modifies this
      ensures Contents() == Spec.Evict(Spec.Put(Unmarked(old(Contents()), s.ref), s), s.ref.connection)
    {
      var c, r := Contents(), s.ref;
      AdmittedShape(c, s);
      hide StoreInvariant.Shape;
      hide StoreInvariant.GoodEntry;
      hide Spec.Evict;
      recentlyEvicted := Without(recentlyEvicted, r);
      unconfirmed := unconfirmed - {r};
      provisionallyLost := provisionallyLost - {r};
      Put(s);
      EvictExecutionEntries(r.connection);
    }

    method Register(r: ExecutionRef, artifact: Id, now: int, jobRef: Option<Id>, sourceDocument: Option<Id>)
      requires Valid()
      modifies this
      ensures Contents() == Spec.Register(old(Contents()), r, artifact, now, jobRef, sourceDocument)
      ensures Valid()
    {
      hide StoreInvariant.Shape;
      hide Spec.Evict;
      hide Without;
      Kept(Contents(), Spec.RegisterOp(r, artifact, now, jobRef, sourceDocument));
      if r in entries {
        recentlyEvicted := Without(recentlyEvicted, r);
        unconfirmed := unconfirmed - {r};
        var existing := entries[r];
        Put(existing.(artifact := Some(artifact), jobRef := Prefer(jobRef, existing.jobRef),
                      sourceDocument := Prefer(sourceDocument, existing.sourceDocument)));
      } else {
        Enter(NewState(r, Some(artifact), now).(jobRef := jobRef, sourceDocument := sourceDocument));
      }
    }

    /** Adopts a proven result; an entry already known is left alone. */
    method RestoreCompleted(p: Spec.ProvenResult)
      requires Valid()
      modifies this
      ensures Contents() == Spec.RestoreCompleted(old(Contents()), p)
      ensures Valid()
    {
      hide StoreInvariant.Shape;
      hide Spec.Evict;
      hide Without;
      Kept(Contents(), Spec.RestoreOp(p));
      if p.ref in entries {
        return;
      }
      Enter(Spec.RestoredState(p));
    }

    /** Executions appear that this client never submitted. */
    method Ensure(r: ExecutionRef, now: int) returns (s: ExecutionState)
      modifies this`entries, this`order
      ensures Contents() == (if r in old(entries) then old(Contents())
              else Spec.Put(old(Contents()), NewState(r, None, now)))
      ensures r in entries && s == entries[r]
    {
      if r in entries {
        return entries[r];
      }
      s := NewState(r, None, now);
      Put(s);
    }

    method QueueStatus(connection: Id, remaining: nat)
      requires Valid()
      modifies this
      ensures Contents() == Spec.Step(old(Contents()), Spec.QueueOp(connection, remaining))
      ensures Valid()
    {
      Kept(Contents(), Spec.QueueOp(connection, remaining));
      queueRemaining := queueRemaining[connection := remaining];
    }

    method Apply(e: ExecutionEvent, r: ExecutionRef, at: int)
      requires Valid()
      modifies this
      ensures Contents() == Spec.Apply(old(Contents()), e, r, at)
      ensures Valid()
    {
      hide StoreInvariant.Shape;
      hide Spec.ApplyToState;
      hide Spec.Evict;
      var c := Contents();
      Kept(c, Spec.ApplyOp(e, r, at));
      if e.Started? {
        recentlyEvicted := Without(recentlyEvicted, r);
        unconfirmed := unconfirmed - {r};
      } else if r !in entries {
        if r in recentlyEvicted {
          return;
        }
        unconfirmed := unconfirmed + {r};
      }
      var created := r !in entries;
      var state := Ensure(r, at);
      AdmittedKept(c, e, r, at);
      assert Contents() == Spec.Admit(c, e, r, at);
      hide Spec.Admit;
      ApplyToState(e, state, at);
      if created {
        EvictExecutionEntries(r.connection);
      }
    }

    /** The event's effect on an entry, and the budget and eviction passes it calls for. */
    method ApplyToState(e: ExecutionEvent, s: ExecutionState, at: int)
      requires Valid() && s.ref in entries && entries[s.ref] == s
      modifies this
      ensures Contents() == Spec.ApplyToState(old(Contents()), e, s.ref, at)
      ensures Valid()
    {
      AppliedKept(Contents(), e, s.ref, at);
      hide *;
      match e
      case NodeEvent => NothingApplied(Contents(), e, s.ref, at);
      case Started => ApplyStarted(s, at);
      case NodeStates(nodes, snapshot) => ApplyNodeStates(s, nodes, snapshot, at);
      case Preview(frame) => ApplyPreview(s, frame, at);
      case ErrorEvent(node, code, message, detail) => ApplyError(e, s, at);
      case Interrupted => ApplyEnd(e, s, InterruptedStatus, at);
      case Completed => ApplyEnd(e, s, CompletedStatus, at);
      case _ => ApplyQuiet(e, s, at);
    }

    /** A run start: an authoritative end stands, a loss verdict is disproved. */
    method ApplyStarted(s: ExecutionState, at: int)
      requires s.ref in entries && entries[s.ref] == s
      modifies this
      ensures Contents() == Spec.ApplyToState(old(Contents()), Started, s.ref, at)
    {
      hide Spec.Evict;
      hide Spec.Enforce;
      if IsAuthoritativeTerminal(s) {
        return;
      }
      if s.ref in provisionallyLost {
        provisionallyLost := provisionallyLost - {s.ref};
        Put(s.(endedAt := None, status := RunningStatus, startedAt := Some(at), errors := WithoutLost(s.errors)));
        return;
      }
      assert provisionallyLost - {s.ref} == provisionallyLost;
      Put(s.(status := RunningStatus, startedAt := Some(at)));
    }

    method ApplyNodeStates(s: ExecutionState, nodes: map<Id, NodeProgress>, snapshot: bool, at: int)
      requires s.ref in entries && entries[s.ref] == s
      modifies this
      ensures Contents() == Spec.ApplyToState(old(Contents()), NodeStates(nodes, snapshot), s.ref, at)
    {
      hide Spec.Evict;
      hide Spec.Enforce;
      hide MergeSnapshot;
      hide LiveNodes;
      var merged: map<Id, NodeProgress>;
      if snapshot {
        merged := MergeSnapshotNodes(s.nodes, nodes);
      } else {
        merged := LiveNodes(s.nodes, nodes);
      }
      if s.ref in provisionallyLost {
        provisionallyLost := provisionallyLost - {s.ref};
        Put(s.(endedAt := None, status := RunningStatus, nodes := merged, errors := WithoutLost(s.errors)));
        return;
      }
      assert provisionallyLost - {s.ref} == provisionallyLost;
      Put(s.(status := if s.status == QueuedStatus then RunningStatus else s.status, nodes := merged));
    }

    /** A frame; for a terminal or unconfirmed entry the byte budget must be enforced again. */
    method ApplyPreview(s: ExecutionState, frame: PreviewData, at: int)
      requires Valid() && s.ref in entries && entries[s.ref] == s
      modifies this
      ensures Contents() == Spec.ApplyToState(old(Contents()), Preview(frame), s.ref, at)
    {
      var c := Contents();
      var budgeted := IsTerminalStatus(s.status) || s.ref in unconfirmed;
      NextShape(c, Preview(frame), s.ref, at);
      hide StoreInvariant.Shape;
      hide Spec.Evict;
      hide Spec.Enforce;
      hide WithPreview;
      Put(WithPreview(s, frame.(timestamp := at)));
      if budgeted {
        EnforcePreviewBudget(s.ref.connection);
      }
    }

    /** What every terminal event does after it put the ended state. */
    method BoundConnection(connection: Id)
      requires Valid()
      modifies this
      ensures Contents() == Spec.Evict(Spec.Enforce(old(Contents()), connection), connection)
    {
      EnforcedShape(Contents(), connection);
      hide StoreInvariant.Shape;
      hide Spec.Evict;
      hide Spec.Enforce;
      EnforcePreviewBudget(connection);
      EvictExecutionEntries(connection);
    }

    method ApplyError(e: ExecutionEvent, s: ExecutionState, at: int)
      requires Valid() && s.ref in entries && entries[s.ref] == s && e.ErrorEvent?
      modifies this
      ensures Contents() == Spec.ApplyToState(old(Contents()), e, s.ref, at)
    {
      hide StoreInvariant.Shape;
      hide Spec.Evict;
      hide Spec.Enforce;
      hide PreserveExecutionDetails;
      hide WithoutLost;
      hide SameReport;
      var c := Contents();
      if IsAuthoritativeTerminal(s) {
        return;
      }
      NextShape(c, e, s.ref, at);
      var nodes := if e.failedNode.Some?
        then s.nodes[e.failedNode.value :=
          PreserveExecutionDetails(NodeProgress(Failed, None, None, None, None, None, map[]),
            Lookup(s.nodes, e.failedNode.value))]
        else s.nodes;
      var diagnostic := RuntimeDiagnostic(e.code, e.message, e.detail);
      var base := if s.ref in provisionallyLost then WithoutLost(s.errors) else s.errors;
      provisionallyLost := provisionallyLost - {s.ref};
      Put(DropPreviewRings(s).(status := ErrorStatus, endedAt := Some(at), nodes := nodes,
                               errors := if exists x :: x in base && SameReport(x, diagnostic) then base
                                 else base + [diagnostic]));
      BoundConnection(s.ref.connection);
    }

    method ApplyEnd(e: ExecutionEvent, s: ExecutionState, status: ExecutionStatus, at: int)
      requires Valid() && s.ref in entries && entries[s.ref] == s
      requires (e.Interrupted? && status == InterruptedStatus) || (e.Completed? && status == CompletedStatus)
      modifies this
      ensures Contents() == Spec.ApplyToState(old(Contents()), e, s.ref, at)
    {
      hide StoreInvariant.Shape;
      hide Spec.Evict;
      hide Spec.Enforce;
      var c := Contents();
      if IsAuthoritativeTerminal(s) {
        return;
      }
      NextShape(c, e, s.ref, at);
      var errors := if s.ref in provisionallyLost then WithoutLost(s.errors) else s.errors;
      provisionallyLost := provisionallyLost - {s.ref};
      Put(DropPreviewRings(s).(status := status, endedAt := Some(at), errors := errors));
      BoundConnection(s.ref.connection);
    }

    /** The events that never end a run, revive one or add frames. */
    method ApplyQuiet(e: ExecutionEvent, s: ExecutionState, at: int)
      requires s.ref in entries && entries[s.ref] == s && ExecutionLog.Sorted(s.log.entries)
      requires e.RegionExpanded? || e.RegionFinished? || e.NodeOutput? || e.Activity? || e.ValueDiagnostics?
               || e.LogRecord?
      modifies this
      ensures Contents() == Spec.ApplyToState(old(Contents()), e, s.ref, at)
    {
      hide Spec.Evict;
      hide Spec.Enforce;
      match e {
        case RegionExpanded(node, contract) =>
          Put(s.(status := if s.status == QueuedStatus then RunningStatus
            else s.status, regions := s.regions[node := RegionProgress(contract, None)]));
        case RegionFinished(node, iterations) =>
          if node in s.regions {
            Put(s.(regions := s.regions[node := s.regions[node].(finishedIterations := Some(iterations))]));
          }
        case NodeOutput(node, output) =>
          var merged := (if node in s.outputs then s.outputs[node] else map[]) + output;
          Put(s.(outputs := s.outputs[node := merged]));
        case Activity(activity) =>
          Put(s.(activities := LastN(s.activities + [activity], ACTIVITY_LOG_CAP)));
        case ValueDiagnostics(diagnostics) =>
          var merged := AddDiagnostics(s.valueDiagnostics, diagnostics);
          if |merged| != |s.valueDiagnostics| {
            Put(s.(valueDiagnostics := LastN(merged, VALUE_DIAGNOSTIC_CAP)));
          }
        case LogRecord(entry) =>
          hide Deliver;
          var log := AddRecord(s.log, entry);
          if log != s.log {
            Put(s.(log := log));
          }
      }
    }

    method HydrateOutputs(r: ExecutionRef, outputs: map<Id, map<Id, Id>>)
      requires Valid()
      modifies this
      ensures Contents() == Spec.HydrateOutputs(old(Contents()), r, outputs)
      ensures Valid()
    {
      Kept(Contents(), Spec.OutputsOp(r, outputs));
      hide StoreInvariant.Shape;
      hide Spec.MergeOutputs;
      if r !in entries {
        return;
      }
      Put(entries[r].(outputs := Spec.MergeOutputs(entries[r].outputs, outputs)));
    }

    method HydrateArtifacts(r: ExecutionRef, artifacts: seq<Id>)
      requires Valid()
      modifies this
      ensures Contents() == Spec.HydrateArtifacts(old(Contents()), r, artifacts)
      ensures Valid()
    {
      Kept(Contents(), Spec.ArtifactsOp(r, artifacts));
      hide StoreInvariant.Shape;
      if r !in entries {
        return;
      }
      Put(entries[r].(artifacts := artifacts, artifactsHydrated := true));
    }

    method HydrateSubmittedBy(r: ExecutionRef, submitter: Id)
      requires Valid()
      modifies this
      ensures Contents() == Spec.HydrateSubmittedBy(old(Contents()), r, submitter)
      ensures Valid()
    {
      Kept(Contents(), Spec.SubmittedByOp(r, submitter));
      hide StoreInvariant.Shape;
      if r !in entries {
        return;
      }
      Put(entries[r].(submittedBy := Some(submitter)));
    }

    /** The reconcile verdict for a run the server no longer knows; a terminal state is never touched. */
    method MarkLost(r: ExecutionRef, now: int)
      requires Valid()
      modifies this
      ensures Contents() == Spec.MarkLost(old(Contents()), r, now)
      ensures Valid()
    {
      hide StoreInvariant.Shape;
      hide Spec.Enforce;
      var c := Contents();
      Kept(c, Spec.MarkLostOp(r, now));
      if r !in entries || IsTerminalStatus(entries[r].status) {
        return;
      }
      LostShape(c, r, now);
      var state := entries[r];
      provisionallyLost := provisionallyLost + {r};
      Put(DropPreviewRings(state).(status := InterruptedStatus, endedAt := Some(now),
        errors := state.errors + [LostDiagnostic]));
      EnforcePreviewBudget(r.connection);
    }

    method Retain(r: ExecutionRef)
      requires Valid()
      modifies this
      ensures Contents() == Spec.Retain(old(Contents()), r)
      ensures Valid()
    {
      Kept(Contents(), Spec.RetainOp(r));
      hide StoreInvariant.Shape;
      retained := retained[r := (if r in retained then retained[r] else 0) + 1];
    }

    /** Drops one pin; the last one may have been all that held an entry over the cap. */
    method Release(r: ExecutionRef)
      requires Valid()
      modifies this
      ensures Contents() == Spec.Release(old(Contents()), r)
      ensures Valid()
    {
      hide StoreInvariant.Shape;
      hide Spec.Evict;
      Kept(Contents(), Spec.ReleaseOp(r));
      if r !in retained {
        return;
      }
      StoreInvariant.UnpinShape(Contents(), r);
      if retained[r] > 1 {
        retained := retained[r := retained[r] - 1];
        return;
      }
      retained := retained - {r};
      EvictExecutionEntries(r.connection);
    }
  }

  ghost function Unmarked(c: Spec.Core, r: ExecutionRef): Spec.Core {
    c.(tombs := Without(c.tombs, r), unconfirmed := c.unconfirmed - {r}, lost := c.lost - {r})
  }

  // ---------------------------------------------------------------------
  // The loops

  /** The entries after the first `n` of the budgeted list were considered. */
  ghost function Part(c: Spec.Core, connection: Id, n: nat): map<ExecutionRef, ExecutionState> {
    map r | r in c.entries :: if OverBefore(c, connection, n, r) then StripPreviewFrames(c.entries[r]) else c.entries[r]
  }

  ghost predicate OverAt(c: Spec.Core, connection: Id, i: int, r: ExecutionRef) {
    0 <= i < |Spec.NewestFirst(c, connection)| && Spec.NewestFirst(c, connection)[i] == r
    && StoreInvariant.Over(Spec.NewestFirst(c, connection), Spec.WeightOf(c, connection), i)
  }

  ghost predicate OverBefore(c: Spec.Core, connection: Id, n: nat, r: ExecutionRef) {
    exists i :: i < n && OverAt(c, connection, i, r)
  }

  lemma BudgetedMembers(c: Spec.Core, connection: Id)
    requires StoreInvariant.Shape(c)
    ensures forall r ::
            r in Spec.NewestFirst(c, connection) ==>
              r in c.entries && Spec.Weight(c, connection, r) == PreviewBytes(c.entries[r])
  {
    hide StoreInvariant.GoodEntries;
    hide PreviewBytes;
  }

  lemma PartStart(c: Spec.Core, connection: Id)
    ensures Part(c, connection, 0) == c.entries
            && SumBy(Spec.NewestFirst(c, connection)[..0], Spec.WeightOf(c, connection)) == 0
  {
  }

  lemma PartStep(c: Spec.Core, connection: Id, n: nat)
    requires n < |Spec.NewestFirst(c, connection)|
    requires forall r ::
             r in Spec.NewestFirst(c, connection) ==>
               r in c.entries && Spec.Weight(c, connection, r) == PreviewBytes(c.entries[r])
    ensures var xs, w := Spec.NewestFirst(c, connection), Spec.WeightOf(c, connection);
            && xs[n] in c.entries
            && SumBy(xs[..n + 1], w) == SumBy(xs[..n], w) + PreviewBytes(c.entries[xs[n]])
            && Part(c, connection, n + 1) == if n > 0 && SumBy(xs[..n + 1], w) > Spec.TERMINAL_PREVIEW_BYTE_BUDGET
                                             then Part(c, connection, n)[xs[n] := StripPreviewFrames(c.entries[xs[n]])]
                                             else Part(c, connection, n)
  {
    var xs, w := Spec.NewestFirst(c, connection), Spec.WeightOf(c, connection);
    assert xs[n] in xs;
    assert w(xs[n]) == PreviewBytes(c.entries[xs[n]]);
    assert xs[..n + 1] == xs[..n] + [xs[n]];
    SumAppend(xs[..n], xs[n], w);
    OverBeforeStep(c, connection, n);
    hide OverBefore;
    hide PreviewBytes;
    hide SumBy;
    hide Spec.NewestFirst;
    hide Spec.WeightOf;
  }

  lemma OverBeforeStep(c: Spec.Core, connection: Id, n: nat)
    requires n < |Spec.NewestFirst(c, connection)|
    ensures var xs, w := Spec.NewestFirst(c, connection), Spec.WeightOf(c, connection);
            forall r ::
              OverBefore(c, connection, n + 1, r) <==>
                OverBefore(c, connection, n, r) || (r == xs[n] && StoreInvariant.Over(xs, w, n))
  {
    var xs, w := Spec.NewestFirst(c, connection), Spec.WeightOf(c, connection);
    hide Spec.NewestFirst;
    hide Spec.WeightOf;
    hide StoreInvariant.Over;
    forall r
      ensures OverBefore(c, connection, n + 1, r) <==>
              OverBefore(c, connection, n, r) || (r == xs[n] && StoreInvariant.Over(xs, w, n))
    {
      assert OverAt(c, connection, n, r) <==> r == xs[n] && StoreInvariant.Over(xs, w, n);
      hide OverAt;
      if OverAt(c, connection, n, r) {
        assert OverBefore(c, connection, n + 1, r);
      }
    }
  }

  lemma OverAtIsOverBudget(c: Spec.Core, connection: Id, i: int, r: ExecutionRef)
    requires OverAt(c, connection, i, r)
    ensures Spec.OverBudget(c, connection, r)
  {
    assert 0 <= i < |Spec.NewestFirst(c, connection)|;
    assert StoreInvariant.Over(Spec.NewestFirst(c, connection), Spec.WeightOf(c, connection), i);
    hide Spec.NewestFirst;
    StoreInvariant.OverBudgetAt(c, connection, i);
  }

  lemma PartDone(c: Spec.Core, connection: Id)
    ensures Spec.Enforce(c, connection) == c.(entries := Part(c, connection, |Spec.NewestFirst(c, connection)|))
  {
    hide Spec.NewestFirst;
    hide Spec.WeightOf;
    forall r | r in c.entries
      ensures OverBefore(c, connection, |Spec.NewestFirst(c, connection)|, r) <==> Spec.OverBudget(c, connection, r)
    {
      if Spec.OverBudget(c, connection, r) {
        var i := StoreInvariant.OverBudgetIndex(c, connection, r);
        assert OverAt(c, connection, i, r);
      }
      if OverBefore(c, connection, |Spec.NewestFirst(c, connection)|, r) {
        var i :| OverAt(c, connection, i, r);
        OverAtIsOverBudget(c, connection, i, r);
      }
    }
  }

  ghost function EvictedUpTo(c: Spec.Core, rs: seq<ExecutionRef>, n: nat): Spec.Core
    requires n <= |rs|
  {
    Spec.EvictAll(c, rs[..n])
  }

  lemma VictimsAre(c: Spec.Core, connection: Id)
    ensures var all, excess := Spec.OldestFirst(c, connection), Spec.Count(c, connection) - Spec.EXECUTION_ENTRY_CAP;
            Spec.Evict(c, connection) == if excess <= 0 then c
              else EvictedUpTo(c, all, if excess < |all| then excess else |all|)
  {
    var all := Spec.OldestFirst(c, connection);
    assert all[..|all|] == all;
    hide Spec.OldestFirst;
    hide Spec.Count;
  }

  lemma EvictNone(c: Spec.Core, rs: seq<ExecutionRef>)
    ensures EvictedUpTo(c, rs, 0) == c
  {
  }

  lemma EvictAllStep(c: Spec.Core, rs: seq<ExecutionRef>, i: nat)
    requires i < |rs|
    ensures EvictedUpTo(c, rs, i + 1) == Spec.EvictOne(EvictedUpTo(c, rs, i), rs[i])
  {
    assert rs[..i + 1][..i] == rs[..i];
    hide Spec.EvictOne;
  }

  lemma Kept(c: Spec.Core, op: Spec.Op)
    requires StoreInvariant.Shape(c)
    ensures StoreInvariant.Shape(Spec.Step(c, op))
  {
    var some: Id :| true;
    hide *;
    StoreInvariant.StepLemma(c, op, some);
  }

  lemma AdmittedShape(c: Spec.Core, s: ExecutionState)
    requires StoreInvariant.Shape(c) && s.ref !in c.entries && StoreInvariant.GoodEntry(s, s.ref, false)
    ensures StoreInvariant.Shape(Spec.Put(Unmarked(c, s.ref), s))
  {
    assert c.lost - {s.ref} == c.lost && c.unconfirmed - {s.ref} == c.unconfirmed;
    StoreInvariant.AddedShape(c, s, false);
    hide StoreInvariant.Shape;
  }

  lemma AdmittedKept(c: Spec.Core, e: ExecutionEvent, r: ExecutionRef, at: int)
    requires StoreInvariant.Shape(c) && !Spec.Discarded(c, e, r)
    ensures StoreInvariant.Shape(Spec.Admit(c, e, r, at)) && r in Spec.Admit(c, e, r, at).entries
    ensures Spec.Admit(c, e, r, at).entries[r].ref == r
    ensures StoreInvariant.Shape(Spec.ApplyToState(Spec.Admit(c, e, r, at), e, r, at))
  {
    StoreInvariant.AdmitLemma(c, e, r, at, r.connection);
    StoreInvariant.ApplyToStateLemma(Spec.Admit(c, e, r, at), e, r, at, r.connection);
    assert StoreInvariant.GoodEntry(Spec.Admit(c, e, r, at).entries[r], r, r in Spec.Admit(c, e, r, at).lost);
    hide StoreInvariant.Shape;
    hide Spec.ApplyToState;
    hide Spec.Admit;
  }

  lemma AppliedKept(c: Spec.Core, e: ExecutionEvent, r: ExecutionRef, at: int)
    requires StoreInvariant.Shape(c) && r in c.entries
    ensures StoreInvariant.Shape(Spec.ApplyToState(c, e, r, at)) && ExecutionLog.Sorted(c.entries[r].log.entries)
  {
    StoreInvariant.ApplyToStateLemma(c, e, r, at, r.connection);
    assert StoreInvariant.GoodEntry(c.entries[r], r, r in c.lost);
    hide StoreInvariant.Shape;
    hide Spec.ApplyToState;
  }

  lemma NothingApplied(c: Spec.Core, e: ExecutionEvent, r: ExecutionRef, at: int)
    requires r in c.entries && e.NodeEvent?
    ensures Spec.ApplyToState(c, e, r, at) == c
  {
  }

  lemma NextShape(c: Spec.Core, e: ExecutionEvent, r: ExecutionRef, at: int)
    requires StoreInvariant.Shape(c) && r in c.entries && Next(c.entries[r], e, at, r in c.lost).Some?
    ensures StoreInvariant.Shape(StoreInvariant.AfterNext(c, e, r, at))
  {
    StoreInvariant.AfterNextLemma(c, e, r, at, r.connection);
  }

  lemma EnforcedShape(c: Spec.Core, connection: Id)
    requires StoreInvariant.Shape(c)
    ensures StoreInvariant.Shape(Spec.Enforce(c, connection))
  {
    StoreInvariant.EnforceShape(c, connection);
  }

  lemma LostShape(c: Spec.Core, r: ExecutionRef, now: int)
    requires StoreInvariant.Shape(c) && r in c.entries && !IsTerminalStatus(c.entries[r].status)
    ensures StoreInvariant.Shape(Spec.Put(c.(lost := c.lost + {r}), Spec.LostState(c.entries[r], now)))
            && c.entries[r].ref == r
  {
    StoreInvariant.LostPut(c, r, now, r.connection);
    assert StoreInvariant.GoodEntry(c.entries[r], r, r in c.lost);
  }
}
