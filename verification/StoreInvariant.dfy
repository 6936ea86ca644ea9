/** What every operation of the execution store keeps, and what holds over every run. */
module StoreInvariant {
  import opened Identity
  import opened Ordered
  import ExecutionLog
  import opened SnapshotMerge
  import opened ExecutionStates
  import opened StoreCore

  /** One live entry: `lost` says that its interrupted status is a reconcile guess. */
  ghost predicate GoodEntry(s: ExecutionState, r: ExecutionRef, lost: bool) {
    && s.ref == r
    && (lost ==> s.status == InterruptedStatus)
    && (LostDiagnostic in s.errors <==> lost)
    && (IsTerminalStatus(s.status) ==> s.previewRings.None?)
    && ExecutionLog.Sorted(s.log.entries) && |s.log.entries| <= ExecutionLog.EXECUTION_LOG_CAP
  }

  ghost predicate GoodEntries(c: Core) {
    forall r :: r in c.entries ==> GoodEntry(c.entries[r], r, r in c.lost)
  }

  /** Keys: the order lists the live entries, lost and unconfirmed keys are live, tombstones are not. */
  ghost predicate GoodKeys(c: Core) {
    && Distinct(c.order) && (forall r :: r in c.order <==> r in c.entries)
    && c.lost <= c.entries.Keys && c.unconfirmed <= c.entries.Keys
    && Distinct(c.tombs) && |c.tombs| <= 2 * EXECUTION_ENTRY_CAP && (forall r :: r in c.tombs ==> r !in c.entries)
    && (forall r :: r in c.retained ==> c.retained[r] >= 1)
  }

  ghost predicate Shape(c: Core) {
    GoodKeys(c) && GoodEntries(c)
  }

  /** Over the cap, nothing evictable is left. */
  ghost predicate Capped(c: Core, k: Id) {
    Count(c, k) > EXECUTION_ENTRY_CAP ==> forall r :: r in c.entries && OnConnection(r, k) ==> !Evictable(c, r)
  }

  /** At most the byte budget or one entry's frames, whichever is larger. */
  ghost predicate AtMostBudgetOrOne(xs: seq<ExecutionRef>, w: ExecutionRef -> nat) {
    SumBy(xs, w) <= TERMINAL_PREVIEW_BYTE_BUDGET || exists r :: r in xs && SumBy(xs, w) <= w(r)
  }

  ghost predicate Within(c: Core, k: Id) {
    AtMostBudgetOrOne(c.order, WeightOf(c, k))
  }

  ghost predicate Inv(c: Core) {
    Shape(c) && (forall k :: Capped(c, k)) && (forall k :: Within(c, k))
  }

  /** `c'` is as good as `c` on connection `k`. */
  ghost predicate Keeps(c: Core, c': Core, k: Id) {
    (Capped(c, k) ==> Capped(c', k)) && (Within(c, k) ==> Within(c', k))
  }

  // ---------------------------------------------------------------------
  // Sums under the budget

  lemma LowerStaysWithin(xs: seq<ExecutionRef>, w: ExecutionRef -> nat, w': ExecutionRef -> nat)
    requires AtMostBudgetOrOne(xs, w) && forall r :: r in xs ==> w'(r) <= w(r)
    ensures AtMostBudgetOrOne(xs, w')
  {
    SumLess(xs, w, w');
    if SumBy(xs, w) > TERMINAL_PREVIEW_BYTE_BUDGET {
      var r :| r in xs && SumBy(xs, w) <= w(r);
      SumRest(xs, w, w', r);
      assert SumBy(xs, w') <= w'(r);
    }
  }

  /** Removing a member is zeroing its weight. */
  lemma WithoutStaysWithin(xs: seq<ExecutionRef>, x: ExecutionRef, w: ExecutionRef -> nat, w': ExecutionRef -> nat)
    requires AtMostBudgetOrOne(xs, w)
    requires forall r :: r in xs && r != x ==> w'(r) <= w(r)
    ensures AtMostBudgetOrOne(Without(xs, x), w')
  {
    var z := (r: ExecutionRef) => if r == x then 0 else w'(r);
    LowerStaysWithin(xs, w, z);
    SumWithout(xs, x, w', z);
    if SumBy(xs, z) > TERMINAL_PREVIEW_BYTE_BUDGET {
      var r :| r in xs && SumBy(xs, z) <= z(r);
      assert r in Without(xs, x);
    }
  }

  /** A new member without weight changes nothing. */
  lemma AppendStaysWithin(xs: seq<ExecutionRef>, x: ExecutionRef, w: ExecutionRef -> nat, w': ExecutionRef -> nat)
    requires AtMostBudgetOrOne(xs, w)
    requires w'(x) == 0 && forall r :: r in xs ==> w'(r) <= w(r)
    ensures AtMostBudgetOrOne(xs + [x], w')
  {
    LowerStaysWithin(xs, w, w');
    SumAppend(xs, x, w');
    if SumBy(xs, w') > TERMINAL_PREVIEW_BYTE_BUDGET {
      var r :| r in xs && SumBy(xs, w') <= w'(r);
      assert r in xs + [x];
    }
  }

  // ---------------------------------------------------------------------
  // Evicting

  lemma TombstoneGood(tombs: seq<ExecutionRef>, r: ExecutionRef)
    requires Distinct(tombs) && |tombs| <= 2 * EXECUTION_ENTRY_CAP
    ensures Distinct(Tombstone(tombs, r)) && |Tombstone(tombs, r)| <= 2 * EXECUTION_ENTRY_CAP
    ensures forall x :: x in Tombstone(tombs, r) ==> x == r || x in tombs
    ensures r in Tombstone(tombs, r)
  {
    if r !in tombs {
      assert (tombs + [r])[|tombs|] == r;
      assert (tombs + [r])[1..] == if tombs == [] then [] else tombs[1..] + [r];
    }
  }

  lemma EvictOneShape(c: Core, r: ExecutionRef)
    requires Shape(c) && r in c.entries
    ensures Shape(EvictOne(c, r))
  {
    TombstoneGood(c.tombs, r);
    WithoutDistinct(c.order, r);
    hide Distinct;
    hide Tombstone;
    hide GoodEntry;
  }

  lemma EvictOneWithin(c: Core, r: ExecutionRef, k: Id)
    requires Shape(c) && r in c.entries && Within(c, k)
    ensures Within(EvictOne(c, r), k)
  {
    hide AtMostBudgetOrOne;
    hide PreviewBytes;
    hide GoodEntry;
    hide Tombstone;
    hide Distinct;
    WithoutStaysWithin(c.order, r, WeightOf(c, k), WeightOf(EvictOne(c, r), k));
  }

  lemma EvictOneCount(c: Core, r: ExecutionRef, k: Id)
    requires Shape(c) && r in c.entries
    ensures Count(EvictOne(c, r), k) == Count(c, k) - if r.connection == k then 1 else 0
    ensures forall x :: Evictable(EvictOne(c, r), x) <==> Evictable(c, x) && x != r
  {
    FilterWithout(c.order, r, Of(k));
  }

  /** Evicting listed entries of one connection removes exactly those. */
  lemma {:induction false} EvictAllLemma(c: Core, rs: seq<ExecutionRef>, connection: Id, k: Id)
    requires Shape(c) && Distinct(rs) && forall r :: r in rs ==> r in c.entries && OnConnection(r, connection)
    ensures Shape(EvictAll(c, rs))
    ensures Within(c, k) ==> Within(EvictAll(c, rs), k)
    ensures Count(EvictAll(c, rs), k) == Count(c, k) - if k == connection then |rs| else 0
    ensures forall x :: Evictable(EvictAll(c, rs), x) <==> Evictable(c, x) && x !in rs
    ensures forall x :: x in EvictAll(c, rs).entries <==> x in c.entries && x !in rs
    ensures forall x :: x in EvictAll(c, rs).entries ==> EvictAll(c, rs).entries[x] == c.entries[x]
    ensures forall x :: x !in rs ==> (x in EvictAll(c, rs).lost <==> x in c.lost)
    ensures forall x :: x !in rs ==> (x in EvictAll(c, rs).unconfirmed <==> x in c.unconfirmed)
    ensures EvictAll(c, rs).retained == c.retained
  {
    if rs != [] {
      var front, r := rs[..|rs| - 1], rs[|rs| - 1];
      assert rs == front + [r];
      assert r !in front;
      EvictAllLemma(c, front, connection, k);
      var mid := EvictAll(c, front);
      hide Shape;
      hide Within;
      hide Distinct;
      hide Evictable;
      hide Count;
      EvictOneShape(mid, r);
      if Within(c, k) {
        EvictOneWithin(mid, r, k);
      }
      EvictOneCount(mid, r, k);
    }
  }

  lemma VictimsLemma(c: Core, connection: Id)
    requires Shape(c)
    ensures Distinct(Victims(c, connection))
    ensures forall r :: r in Victims(c, connection) ==> OnConnection(r, connection) && Evictable(c, r)
    ensures Count(c, connection) - |Victims(c, connection)| > EXECUTION_ENTRY_CAP ==>
              forall r ::
                r in c.entries && OnConnection(r, connection) && Evictable(c, r) ==> r in Victims(c, connection)
  {
    FilterDistinct(c.order, EvictableOf(c, connection));
    SortByIsSorted(Filter(c.order, EvictableOf(c, connection)), QueuedOf(c));
    hide Evictable;
    hide GoodEntries;
  }

  lemma EvictLemma(c: Core, connection: Id, k: Id)
    requires Shape(c)
    ensures Shape(Evict(c, connection)) && Keeps(c, Evict(c, connection), k) && Capped(Evict(c, connection), connection)
  {
    var rs := Victims(c, connection);
    VictimsLemma(c, connection);
    hide Victims;
    hide Within;
    hide Shape;
    hide Count;
    hide Distinct;
    assert forall r :: r in rs ==> r in c.entries && OnConnection(r, connection);
    EvictAllLemma(c, rs, connection, k);
    EvictAllLemma(c, rs, connection, connection);
    hide EvictAll;
    hide Evictable;
  }

  // ---------------------------------------------------------------------
  // Stripping frames beyond the budget

  ghost predicate Over(xs: seq<ExecutionRef>, w: ExecutionRef -> nat, i: int) {
    0 < i < |xs| && SumBy(xs[..i + 1], w) > TERMINAL_PREVIEW_BYTE_BUDGET
  }

  /** Zeroing every member but the first whose prefix exceeds the budget leaves a budgeted sum. */
  lemma {:induction false} PrefixBudget(xs: seq<ExecutionRef>, w: ExecutionRef -> nat, w': ExecutionRef -> nat, n: nat)
    requires n <= |xs|
    requires forall i :: 0 <= i < |xs| ==> w'(xs[i]) == if Over(xs, w, i) then 0 else w(xs[i])
    ensures if SumBy(xs[..n], w) <= TERMINAL_PREVIEW_BYTE_BUDGET then SumBy(xs[..n], w') == SumBy(xs[..n], w)
            else SumBy(xs[..n], w') <= TERMINAL_PREVIEW_BYTE_BUDGET || SumBy(xs[..n], w') <= w'(xs[0])
  {
    if n > 0 {
      PrefixBudget(xs, w, w', n - 1);
      assert xs[..n] == xs[..n - 1] + [xs[n - 1]];
      SumAppend(xs[..n - 1], xs[n - 1], w);
      SumAppend(xs[..n - 1], xs[n - 1], w');
      assert n == 1 ==> SumBy(xs[..n - 1], w) == 0 && SumBy(xs[..n - 1], w') == 0;
      hide SumBy;
    }
  }

  lemma EnforceShape(c: Core, connection: Id)
    requires Shape(c)
    ensures Shape(Enforce(c, connection))
  {
    var c' := Enforce(c, connection);
    forall r | r in c'.entries
      ensures GoodEntry(c'.entries[r], r, r in c'.lost)
    {
      hide OverBudget;
      hide ExecutionLog.Sorted;
    }
    hide OverBudget;
    hide Distinct;
    hide GoodEntry;
  }

  lemma EnforceCapped(c: Core, connection: Id, k: Id)
    ensures Capped(c, k) ==> Capped(Enforce(c, connection), k)
    ensures forall r :: Evictable(Enforce(c, connection), r) <==> Evictable(c, r)
  {
    hide OverBudget;
  }

  /** Entries outside the sorted list weigh nothing. */
  lemma HoldingSum(c: Core, connection: Id, w: ExecutionRef -> nat)
    requires forall r :: r in c.order && !Holding(c, connection, r) ==> w(r) == 0
    ensures SumBy(NewestFirst(c, connection), w) == SumBy(c.order, w)
  {
    SumFilter(c.order, HoldingOf(c, connection), w);
    SumSort(Filter(c.order, HoldingOf(c, connection)), AgeOf(c), w);
  }

  lemma EnforceWeights(c: Core, connection: Id, r: ExecutionRef)
    requires r in c.entries
    ensures var w' := Weight(Enforce(c, connection), connection, r);
            && w' == (if OverBudget(c, connection, r) then 0 else Weight(c, connection, r))
            && (!Holding(c, connection, r) ==> w' == 0)
  {
    NoPreviewsNoBytes(StripPreviewFrames(c.entries[r]));
    if !HoldsPreviews(c.entries[r]) {
      NoPreviewsNoBytes(c.entries[r]);
    }
    hide OverBudget;
    hide PreviewBytes;
  }

  lemma OverIsOverBudget(c: Core, connection: Id, i: nat)
    requires GoodKeys(c) && i < |NewestFirst(c, connection)|
    ensures OverBudget(c, connection, NewestFirst(c, connection)[i]) <==>
            Over(NewestFirst(c, connection), WeightOf(c, connection), i)
  {
    FilterDistinct(c.order, HoldingOf(c, connection));
    SortByIsSorted(Filter(c.order, HoldingOf(c, connection)), AgeOf(c));
  }

  lemma EnforceWithin(c: Core, connection: Id)
    requires Shape(c)
    ensures Within(Enforce(c, connection), connection)
  {
    var c' := Enforce(c, connection);
    var xs := NewestFirst(c, connection);
    var w, w' := WeightOf(c, connection), WeightOf(c', connection);
    assert forall r :: r in xs ==> r in c.order;
    forall r | r in c.order
      ensures w'(r) == (if OverBudget(c, connection, r) then 0 else w(r))
      ensures !Holding(c, connection, r) ==> w'(r) == 0
    {
      EnforceWeights(c, connection, r);
    }
    forall i | 0 <= i < |xs|
      ensures w'(xs[i]) == if Over(xs, w, i) then 0 else w(xs[i])
    {
      OverIsOverBudget(c, connection, i);
    }
    hide OverBudget;
    hide Over;
    hide NewestFirst;
    hide Weight;
    hide WeightOf;
    PrefixBudget(xs, w, w', |xs|);
    assert xs[..|xs|] == xs;
    HoldingSum(c, connection, w');
    if xs == [] {
      assert SumBy(xs, w') == 0;
    }
  }

  lemma EnforceWithinOther(c: Core, connection: Id, k: Id)
    requires GoodKeys(c) && Within(c, k)
    ensures Within(Enforce(c, connection), k)
  {
    var c' := Enforce(c, connection);
    forall r | r in c.order
      ensures WeightOf(c', k)(r) <= WeightOf(c, k)(r)
    {
      EnforceLighter(c, connection, k, r);
    }
    hide Weight;
    hide AtMostBudgetOrOne;
    LowerStaysWithin(c.order, WeightOf(c, k), WeightOf(c', k));
  }

  lemma EnforceLighter(c: Core, connection: Id, k: Id, r: ExecutionRef)
    requires r in c.entries
    ensures Weight(Enforce(c, connection), k, r) <= Weight(c, k, r)
  {
    hide OverBudget;
    hide PreviewBytes;
    hide HoldsPreviews;
    DropFewerBytes(c.entries[r]);
  }

  lemma EnforceLemma(c: Core, connection: Id, k: Id)
    requires Shape(c)
    ensures Shape(Enforce(c, connection)) && Keeps(c, Enforce(c, connection), k)
            && Within(Enforce(c, connection), connection)
  {
    hide GoodEntries;
    hide GoodKeys;
    hide Within;
    hide Capped;
    hide Enforce;
    EnforceShape(c, connection);
    EnforceCapped(c, connection, k);
    EnforceWithin(c, connection);
    if Within(c, k) {
      EnforceWithinOther(c, connection, k);
    }
  }

  // ---------------------------------------------------------------------
  // Replacing or adding one entry

  lemma PreviewTouches(s: ExecutionState, frame: PreviewData)
    ensures var s' := WithPreview(s, frame);
            && s'.ref == s.ref && s'.status == s.status && s'.errors == s.errors && s'.log == s.log
            && s'.queuedAt == s.queuedAt && s'.endedAt == s.endedAt
            && (IsTerminalStatus(s.status) && s.previewRings.None? ==> s'.previewRings.None?)
  {
    if IsTerminalStatus(s.status) && s.previewRings.None? && frame.source.Some? {
      assert FrameRings(s, frame.source.value, frame).None?;
    }
    hide FrameRings;
  }

  lemma ErrorTouches(s: ExecutionState, node: Option<Id>, d: Diagnostic, at: int, lost: bool)
    requires d.RuntimeDiagnostic?
    ensures var s' := WithError(s, node, d, at, lost);
            && s'.ref == s.ref && s'.status == ErrorStatus && s'.log == s.log && s'.previewRings == None
            && s'.queuedAt == s.queuedAt
            && ((LostDiagnostic in s.errors ==> lost) ==> LostDiagnostic !in s'.errors)
  {
  }

  /** An event keeps an entry good; only a settling event ends a loss verdict, and none starts one. */
  lemma NextGood(s: ExecutionState, r: ExecutionRef, e: ExecutionEvent, at: int, lost: bool)
    requires GoodEntry(s, r, lost) && Next(s, e, at, lost).Some?
    ensures GoodEntry(Next(s, e, at, lost).value, r, lost && !Settles(e))
  {
    match e
    case LogRecord(entry) =>
      ExecutionLog.DeliverSorted(s.log, entry);
    case ErrorEvent(node, code, message, detail) =>
      ErrorTouches(s, node, RuntimeDiagnostic(code, message, detail), at, lost);
      hide WithError;
      hide ExecutionLog.Sorted;
    case Preview(frame) =>
      PreviewTouches(s, frame.(timestamp := at));
      hide WithPreview;
      hide ExecutionLog.Sorted;
    case _ =>
      hide ExecutionLog.Sorted;
  }

  /** Only a terminal event makes an entry authoritative, and only previews and terminal events change its frames. */
  lemma NextStatus(s: ExecutionState, r: ExecutionRef, e: ExecutionEvent, at: int, lost: bool)
    requires GoodEntry(s, r, lost) && Next(s, e, at, lost).Some?
    ensures var s' := Next(s, e, at, lost).value;
            && s'.queuedAt == s.queuedAt
            && (IsTerminalStatus(s.status) && !lost ==> s'.status == s.status && s'.endedAt == s.endedAt)
            && (IsTerminalStatus(s'.status) && !IsTerminalEvent(e) ==>
               IsTerminalStatus(s.status) && s'.status == s.status && !(lost && Settles(e)))
            && (!IsTerminalEvent(e) && !e.Preview? ==> Payloads(s') == Payloads(s))
            && s'.log == (if e.LogRecord? then ExecutionLog.Deliver(s.log, e.entry) else s.log)
  {
    match e
    case ErrorEvent(node, code, message, detail) =>
      ErrorTouches(s, node, RuntimeDiagnostic(code, message, detail), at, lost);
      hide WithError;
      hide Payloads;
      hide ExecutionLog.Sorted;
    case Preview(frame) =>
      PreviewTouches(s, frame.(timestamp := at));
      hide WithPreview;
      hide Payloads;
    case _ =>
      hide WithError;
      hide WithPreview;
      hide ExecutionLog.Deliver;
      hide ExecutionLog.Sorted;
      hide StillPayloads;
      hide RingPayloads;
  }

  /** Fewer bytes and nothing newly evictable keep a connection as good as it was. */
  lemma QuieterKeeps(c: Core, c': Core, k: Id)
    requires c'.order == c.order && c'.entries.Keys == c.entries.Keys
    requires forall r :: r in c.order ==> Weight(c', k, r) <= Weight(c, k, r)
    requires forall r :: r in c.entries && OnConnection(r, k) && Evictable(c', r) ==> Evictable(c, r)
    ensures Keeps(c, c', k)
  {
    if Within(c, k) {
      assert forall r :: r in c.order ==> WeightOf(c', k)(r) <= WeightOf(c, k)(r);
      LowerStaysWithin(c.order, WeightOf(c, k), WeightOf(c', k));
    }
    hide Weight;
    hide Within;
    hide Evictable;
  }

  ghost function Settled(c: Core, r: ExecutionRef, settle: bool): Core {
    if settle then c.(lost := c.lost - {r}) else c
  }

  lemma PutShape(c: Core, r: ExecutionRef, s': ExecutionState, settle: bool)
    requires Shape(c) && r in c.entries && GoodEntry(s', r, r in c.lost && !settle)
    ensures Shape(Put(Settled(c, r, settle), s'))
  {
    hide Distinct;
    assert s'.ref == r;
    hide GoodEntry;
  }

  /** Replacing an entry by one that holds no more bytes and is no more evictable. */
  lemma PutKeeps(c: Core, r: ExecutionRef, s': ExecutionState, settle: bool, k: Id)
    requires Shape(c) && r in c.entries && s'.ref == r
    requires var c' := Put(Settled(c, r, settle), s');
             k == r.connection ==> Weight(c', k, r) <= Weight(c, k, r) && (Evictable(c', r) ==> Evictable(c, r))
    ensures Keeps(c, Put(Settled(c, r, settle), s'), k)
  {
    var c' := Put(Settled(c, r, settle), s');
    hide GoodEntry;
    hide PreviewBytes;
    hide Distinct;
    assert c'.entries.Keys == c.entries.Keys;
    QuieterKeeps(c, c', k);
  }

  lemma PutCapped(c: Core, r: ExecutionRef, s': ExecutionState, settle: bool, k: Id)
    requires Shape(c) && r in c.entries && s'.ref == r
    requires Evictable(Put(Settled(c, r, settle), s'), r) ==> Evictable(c, r)
    requires Capped(c, k)
    ensures Capped(Put(Settled(c, r, settle), s'), k)
  {
    hide GoodEntry;
    hide Distinct;
    hide Filter;
  }

  /** An event that is not terminal makes nothing evictable, and unless it is a preview it adds no bytes. */
  lemma CalmWeights(c: Core, e: ExecutionEvent, r: ExecutionRef, at: int, k: Id)
    requires Shape(c) && r in c.entries && !IsTerminalEvent(e) && Next(c.entries[r], e, at, r in c.lost).Some?
    ensures var c' := Put(Settled(c, r, Settles(e)), Next(c.entries[r], e, at, r in c.lost).value);
            && (Evictable(c', r) ==> Evictable(c, r))
            && ((e.Preview? ==> !Budgeted(c, r)) ==> Weight(c', k, r) <= Weight(c, k, r))
  {
    var s, lost := c.entries[r], r in c.lost;
    assert GoodEntry(s, r, lost);
    hide Shape;
    NextGood(s, r, e, at, lost);
    NextStatus(s, r, e, at, lost);
    hide Next;
    hide Payloads;
    hide Bytes;
    hide ExecutionLog.Sorted;
  }

  ghost function AfterNext(c: Core, e: ExecutionEvent, r: ExecutionRef, at: int): Core
    requires r in c.entries && Next(c.entries[r], e, at, r in c.lost).Some?
  {
    Put(Settled(c, r, Settles(e)), Next(c.entries[r], e, at, r in c.lost).value)
  }

  lemma AfterNextLemma(c: Core, e: ExecutionEvent, r: ExecutionRef, at: int, k: Id)
    requires Shape(c) && r in c.entries && Next(c.entries[r], e, at, r in c.lost).Some?
    ensures Shape(AfterNext(c, e, r, at))
    ensures k != r.connection || (!IsTerminalEvent(e) && (e.Preview? ==> !Budgeted(c, r))) ==>
            Keeps(c, AfterNext(c, e, r, at), k)
    ensures !IsTerminalEvent(e) && Capped(c, k) ==> Capped(AfterNext(c, e, r, at), k)
  {
    hide Shape;
    hide Next;
    hide GoodEntry;
    hide Weight;
    hide Evictable;
    hide Put;
    hide Settled;
    hide Within;
    hide Capped;
    var s' := Next(c.entries[r], e, at, r in c.lost).value;
    EntryIsGood(c, r);
    NextGood(c.entries[r], r, e, at, r in c.lost);
    GoodRef(s', r, r in c.lost && !Settles(e));
    if !IsTerminalEvent(e) {
      CalmWeights(c, e, r, at, k);
    }
    PutShape(c, r, s', Settles(e));
    if k != r.connection || (!IsTerminalEvent(e) && (e.Preview? ==> !Budgeted(c, r))) {
      PutKeeps(c, r, s', Settles(e), k);
    }
    if !IsTerminalEvent(e) && Capped(c, k) {
      PutCapped(c, r, s', Settles(e), k);
    }
  }

  lemma EntryIsGood(c: Core, r: ExecutionRef)
    requires Shape(c) && r in c.entries
    ensures GoodEntry(c.entries[r], r, r in c.lost) && c.entries[r].ref == r
  {
    hide GoodKeys;
  }

  lemma GoodRef(s: ExecutionState, r: ExecutionRef, lost: bool)
    requires GoodEntry(s, r, lost)
    ensures s.ref == r
  {
  }

  /** A frame for a budgeted entry runs the budget pass. */
  lemma LoudPreview(c: Core, e: ExecutionEvent, r: ExecutionRef, at: int, k: Id)
    requires Shape(c) && r in c.entries && e.Preview? && Budgeted(c, r)
    ensures Shape(ApplyToState(c, e, r, at)) && Keeps(c, ApplyToState(c, e, r, at), k)
  {
    assert Next(c.entries[r], e, at, r in c.lost).Some?;
    AfterNextLemma(c, e, r, at, k);
    var c1 := AfterNext(c, e, r, at);
    assert ApplyToState(c, e, r, at) == Enforce(c1, r.connection);
    hide Shape;
    hide Capped;
    hide Within;
    hide ApplyToState;
    hide Enforce;
    hide AfterNext;
    EnforceLemma(c1, r.connection, k);
  }

  /** A terminal event runs the budget pass and then the eviction pass. */
  lemma TerminalEvent(c: Core, e: ExecutionEvent, r: ExecutionRef, at: int, k: Id)
    requires Shape(c) && r in c.entries && IsTerminalEvent(e) && Next(c.entries[r], e, at, r in c.lost).Some?
    ensures Shape(ApplyToState(c, e, r, at)) && Keeps(c, ApplyToState(c, e, r, at), k)
  {
    AfterNextLemma(c, e, r, at, k);
    var c1 := AfterNext(c, e, r, at);
    assert ApplyToState(c, e, r, at) == Evict(Enforce(c1, r.connection), r.connection);
    hide *;
    KeepsBoth(c, c1, r.connection, k);
  }

  lemma KeepsBoth(c: Core, c1: Core, connection: Id, k: Id)
    requires Shape(c1) && (k != connection ==> Keeps(c, c1, k))
    ensures var c2 := Evict(Enforce(c1, connection), connection);
            Shape(c2) && Keeps(c, c2, k)
  {
    hide Shape;
    hide Capped;
    hide Within;
    hide Enforce;
    hide Evict;
    EnforceLemma(c1, connection, k);
    EvictLemma(Enforce(c1, connection), connection, k);
  }

  lemma ApplyToStateLemma(c: Core, e: ExecutionEvent, r: ExecutionRef, at: int, k: Id)
    requires Shape(c) && r in c.entries
    ensures Shape(ApplyToState(c, e, r, at)) && Keeps(c, ApplyToState(c, e, r, at), k)
  {
    if Next(c.entries[r], e, at, r in c.lost).None? {
    } else if IsTerminalEvent(e) {
      TerminalEvent(c, e, r, at, k);
    } else if e.Preview? && Budgeted(c, r) {
      LoudPreview(c, e, r, at, k);
    } else {
      AfterNextLemma(c, e, r, at, k);
      assert ApplyToState(c, e, r, at) == AfterNext(c, e, r, at);
    }
  }

  /** A new entry without frames; only joining chatter leaves it unconfirmed. */
  ghost function Added(c: Core, s: ExecutionState, joins: bool): Core {
    Put(c.(tombs := Without(c.tombs, s.ref), unconfirmed := if joins then c.unconfirmed + {s.ref} else c.unconfirmed),
      s)
  }

  lemma AddedShape(c: Core, s: ExecutionState, joins: bool)
    requires Shape(c) && s.ref !in c.entries && GoodEntry(s, s.ref, false)
    ensures Shape(Added(c, s, joins))
  {
    WithoutDistinct(c.tombs, s.ref);
    WithoutShorter(c.tombs, s.ref);
    assert s.ref !in c.order;
    assert Distinct(c.order + [s.ref]);
    hide Distinct;
    hide GoodEntry;
  }

  lemma {:induction false} WithoutShorter(xs: seq<ExecutionRef>, x: ExecutionRef)
    ensures |Without(xs, x)| <= |xs|
  {
    if xs != [] {
      WithoutShorter(xs[1..], x);
    }
  }

  lemma AddedKeeps(c: Core, s: ExecutionState, joins: bool, k: Id)
    requires Shape(c) && s.ref !in c.entries && !HoldsPreviews(s)
    ensures Within(c, k) ==> Within(Added(c, s, joins), k)
    ensures k != s.ref.connection ==> Keeps(c, Added(c, s, joins), k)
  {
    var c' := Added(c, s, joins);
    NoPreviewsNoBytes(s);
    hide GoodEntries;
    hide PreviewBytes;
    hide Distinct;
    if Within(c, k) {
      assert s.ref !in c.order;
      AppendStaysWithin(c.order, s.ref, WeightOf(c, k), WeightOf(c', k));
    }
    FilterAppend(c.order, s.ref, Of(k));
    hide Within;
  }

  /** Replacing an entry by one that differs in nothing the caps, the budget or a loss verdict look at. */
  lemma DressedKeeps(c: Core, s': ExecutionState, k: Id)
    requires Shape(c) && s'.ref in c.entries
    requires var s := c.entries[s'.ref];
             && s'.status == s.status && s'.errors == s.errors && s'.log == s.log && s'.previewRings == s.previewRings
             && s'.previews == s.previews && s'.lastPreview == s.lastPreview
    ensures Shape(Put(c, s')) && Keeps(c, Put(c, s'), k)
  {
    var s, r := c.entries[s'.ref], s'.ref;
    assert GoodEntry(s, r, r in c.lost);
    assert Payloads(s') == Payloads(s) by {
      hide StillPayloads;
      hide RingPayloads;
    }
    assert GoodEntry(s', r, r in c.lost) by { hide ExecutionLog.Sorted; }
    hide GoodEntry;
    hide Payloads;
    hide Bytes;
    PutShape(c, r, s', false);
    hide Shape;
    PutKeeps(c, r, s', false, k);
    hide Keeps;
  }

  // ---------------------------------------------------------------------
  // The operations

  lemma RegisterLemma(c: Core, r: ExecutionRef, artifact: Id, now: int, jobRef: Option<Id>, sourceDocument: Option<Id>,
                      k: Id)
    requires Shape(c)
    ensures var c' := Register(c, r, artifact, now, jobRef, sourceDocument);
            Shape(c') && Keeps(c, c', k)
  {
    if r in c.entries {
      ConfirmLemma(c, r, k);
      var s := c.entries[r];
      var cleared := c.(tombs := Without(c.tombs, r), unconfirmed := c.unconfirmed - {r});
      assert s.ref == r;
      hide Shape;
      hide Capped;
      hide Within;
      DressedKeeps(cleared, s.(artifact := Some(artifact), jobRef := Prefer(jobRef, s.jobRef),
        sourceDocument := Prefer(sourceDocument, s.sourceDocument)), k);
    } else {
      var s := NewState(r, Some(artifact), now).(jobRef := jobRef, sourceDocument := sourceDocument);
      assert c.lost - {r} == c.lost && c.unconfirmed - {r} == c.unconfirmed;
      assert GoodEntry(s, r, false);
      AddedEvicted(c, s, k);
    }
  }

  /** Vouching for an entry takes it out of the evictable and the budgeted ones. */
  lemma ConfirmLemma(c: Core, r: ExecutionRef, k: Id)
    requires Shape(c) && r in c.entries
    ensures var c' := c.(tombs := Without(c.tombs, r), unconfirmed := c.unconfirmed - {r});
            Shape(c') && Keeps(c, c', k)
  {
    var c' := c.(tombs := Without(c.tombs, r), unconfirmed := c.unconfirmed - {r});
    WithoutAbsent(c.tombs, r);
    hide Distinct;
    hide GoodEntry;
    hide PreviewBytes;
    QuieterKeeps(c, c', k);
    hide Keeps;
  }

  lemma AddedEvicted(c: Core, s: ExecutionState, k: Id)
    requires Shape(c) && s.ref !in c.entries && GoodEntry(s, s.ref, false) && !HoldsPreviews(s)
    ensures var c' := Evict(Added(c, s, false), s.ref.connection);
            Shape(c') && Keeps(c, c', k)
  {
    AddedShape(c, s, false);
    AddedKeeps(c, s, false, k);
    hide Shape;
    hide Added;
    hide Within;
    hide Capped;
    hide Evict;
    hide GoodEntry;
    EvictLemma(Added(c, s, false), s.ref.connection, k);
  }

  lemma RestoreLemma(c: Core, p: ProvenResult, k: Id)
    requires Shape(c)
    ensures Shape(RestoreCompleted(c, p)) && Keeps(c, RestoreCompleted(c, p), k)
  {
    var r := p.ref;
    if r !in c.entries {
      assert c.lost - {r} == c.lost && c.unconfirmed - {r} == c.unconfirmed;
      assert GoodEntry(RestoredState(p), r, false);
      AddedEvicted(c, RestoredState(p), k);
    }
  }

  lemma MarkLostLemma(c: Core, r: ExecutionRef, now: int, k: Id)
    requires Shape(c)
    ensures Shape(MarkLost(c, r, now)) && Keeps(c, MarkLost(c, r, now), k)
  {
    if r in c.entries && !IsTerminalStatus(c.entries[r].status) {
      var c0 := c.(lost := c.lost + {r});
      var s' := LostState(c.entries[r], now);
      LostPut(c, r, now, k);
      var c1 := Put(c0, s');
      hide Shape;
      hide Capped;
      hide Within;
      hide Enforce;
      hide Put;
      EnforceLemma(c1, r.connection, k);
    }
  }

  lemma LostPut(c: Core, r: ExecutionRef, now: int, k: Id)
    requires Shape(c) && r in c.entries && !IsTerminalStatus(c.entries[r].status)
    ensures var c1 := Put(c.(lost := c.lost + {r}), LostState(c.entries[r], now));
            && Shape(c1) && (Capped(c, k) ==> Capped(c1, k)) && (k != r.connection && Within(c, k) ==> Within(c1, k))
  {
    var c1 := Put(c.(lost := c.lost + {r}), LostState(c.entries[r], now));
    assert GoodEntry(c.entries[r], r, r in c.lost);
    LostGood(c.entries[r], r, r in c.lost, now);
    assert c1.entries[r].ref == r && c1.entries[r].status == InterruptedStatus;
    hide LostState;
    hide GoodEntry;
    hide PreviewBytes;
    hide Distinct;
    assert c1.entries.Keys == c.entries.Keys;
    if k != r.connection {
      QuieterKeeps(c, c1, k);
    }
    hide AtMostBudgetOrOne;
    hide Filter;
  }

  lemma LostGood(s: ExecutionState, r: ExecutionRef, lost: bool, now: int)
    requires GoodEntry(s, r, lost)
    ensures GoodEntry(LostState(s, now), r, true)
  {
    assert LostDiagnostic in s.errors + [LostDiagnostic];
    hide ExecutionLog.Sorted;
  }

  lemma RetainLemma(c: Core, r: ExecutionRef, k: Id)
    requires Shape(c)
    ensures Shape(Retain(c, r)) && Keeps(c, Retain(c, r), k)
  {
    hide Distinct;
    hide GoodEntry;
    hide PreviewBytes;
    QuieterKeeps(c, Retain(c, r), k);
    hide Keeps;
  }

  lemma ReleaseLemma(c: Core, r: ExecutionRef, k: Id)
    requires Shape(c)
    ensures Shape(Release(c, r)) && Keeps(c, Release(c, r), k)
  {
    hide Distinct;
    hide GoodEntry;
    hide PreviewBytes;
    if r !in c.retained {
    } else if c.retained[r] > 1 {
      QuieterKeeps(c, Release(c, r), k);
      hide Keeps;
    } else {
      var c1 := c.(retained := c.retained - {r});
      if k != r.connection {
        QuieterKeeps(c, c1, k);
      }
      assert Within(c, k) ==> Within(c1, k) by {
        assert forall x :: WeightOf(c1, k)(x) == WeightOf(c, k)(x);
        if Within(c, k) {
          LowerStaysWithin(c.order, WeightOf(c, k), WeightOf(c1, k));
        }
      }
      EvictLemma(c1, r.connection, k);
      hide Evict;
      hide Capped;
      hide Within;
    }
  }

  lemma AdmitLemma(c: Core, e: ExecutionEvent, r: ExecutionRef, at: int, k: Id)
    requires Shape(c) && !Discarded(c, e, r)
    ensures var c1 := Admit(c, e, r, at);
            && r in c1.entries && Shape(c1) && (Within(c, k) ==> Within(c1, k))
            && (r in c.entries || k != r.connection ==> Keeps(c, c1, k))
  {
    if r in c.entries {
      if e.Started? {
        ConfirmLemma(c, r, k);
      }
    } else {
      var s := NewState(r, None, at);
      assert GoodEntry(s, r, false);
      AddedShape(c, s, !e.Started?);
      AddedKeeps(c, s, !e.Started?, k);
      WithoutAbsentUnless(c, e, r);
      assert c.unconfirmed - {r} == c.unconfirmed;
      assert Admit(c, e, r, at) == Added(c, s, !e.Started?);
    }
    hide Shape;
    hide Keeps;
    hide Within;
  }

  lemma WithoutAbsentUnless(c: Core, e: ExecutionEvent, r: ExecutionRef)
    requires !e.Started? ==> r !in c.tombs
    ensures !e.Started? ==> Without(c.tombs, r) == c.tombs
  {
    if !e.Started? {
      WithoutAbsent(c.tombs, r);
    }
  }

  lemma ApplyLemma(c: Core, e: ExecutionEvent, r: ExecutionRef, at: int, k: Id)
    requires Shape(c)
    ensures Shape(Apply(c, e, r, at)) && Keeps(c, Apply(c, e, r, at), k)
  {
    if !Discarded(c, e, r) {
      AdmitLemma(c, e, r, at, k);
      var c1 := Admit(c, e, r, at);
      hide Admit;
      hide Shape;
      hide Within;
      hide Capped;
      hide ApplyToState;
      hide Evict;
      hide Discarded;
      ApplyToStateLemma(c1, e, r, at, k);
      EvictAfter(ApplyToState(c1, e, r, at), r.connection, k);
    }
  }

  lemma EvictAfter(c: Core, connection: Id, k: Id)
    requires Shape(c)
    ensures Shape(Evict(c, connection)) && Keeps(c, Evict(c, connection), k) && Capped(Evict(c, connection), connection)
  {
    EvictLemma(c, connection, k);
  }

  lemma HydrateLemma(c: Core, r: ExecutionRef, outputs: map<Id, map<Id, Id>>, artifacts: seq<Id>, submitter: Id, k: Id)
    requires Shape(c)
    ensures Shape(HydrateOutputs(c, r, outputs)) && Keeps(c, HydrateOutputs(c, r, outputs), k)
    ensures Shape(HydrateArtifacts(c, r, artifacts)) && Keeps(c, HydrateArtifacts(c, r, artifacts), k)
    ensures Shape(HydrateSubmittedBy(c, r, submitter)) && Keeps(c, HydrateSubmittedBy(c, r, submitter), k)
  {
    if r in c.entries {
      var s := c.entries[r];
      assert s.ref == r;
      hide Shape;
      hide Put;
      hide MergeOutputs;
      DressedKeeps(c, s.(outputs := MergeOutputs(s.outputs, outputs)), k);
      DressedKeeps(c, s.(artifacts := artifacts, artifactsHydrated := true), k);
      DressedKeeps(c, s.(submittedBy := Some(submitter)), k);
    }
    hide Keeps;
  }

  lemma QueueLemma(c: Core, connection: Id, remaining: nat, k: Id)
    requires Shape(c)
    ensures var c' := c.(queueRemaining := c.queueRemaining[connection := remaining]);
            Shape(c') && Keeps(c, c', k)
  {
    var c' := c.(queueRemaining := c.queueRemaining[connection := remaining]);
    hide Distinct;
    hide GoodEntry;
    hide PreviewBytes;
    QuieterKeeps(c, c', k);
    hide Keeps;
  }

  lemma StepLemma(c: Core, op: Op, k: Id)
    requires Shape(c)
    ensures Shape(Step(c, op)) && Keeps(c, Step(c, op), k)
  {
    match op
    case RegisterOp(r, artifact, now, jobRef, sourceDocument) =>
      RegisterLemma(c, r, artifact, now, jobRef, sourceDocument, k);
    case RestoreOp(p) => RestoreLemma(c, p, k);
    case ApplyOp(e, r, at) => ApplyLemma(c, e, r, at, k);
    case QueueOp(connection, remaining) => QueueLemma(c, connection, remaining, k);
    case OutputsOp(r, outputs) => HydrateLemma(c, r, outputs, [], r.prompt, k);
    case ArtifactsOp(r, artifacts) => HydrateLemma(c, r, map[], artifacts, r.prompt, k);
    case SubmittedByOp(r, submitter) => HydrateLemma(c, r, map[], [], submitter, k);
    case MarkLostOp(r, now) => MarkLostLemma(c, r, now, k);
    case RetainOp(r) => RetainLemma(c, r, k);
    case ReleaseOp(r) => ReleaseLemma(c, r, k);
  }

  // ---------------------------------------------------------------------
  // Every run

  /** Whatever the operations and their order: the shape, the entry cap and the byte budget hold. */
  lemma {:induction false} RunInvariant(c: Core, ops: seq<Op>)
    requires Inv(c)
    ensures Inv(Run(c, ops))
  {
    if ops != [] {
      var front, op := ops[..|ops| - 1], ops[|ops| - 1];
      RunInvariant(c, front);
      var before := Run(c, front);
      hide Shape;
      hide Capped;
      hide Within;
      hide Step;
      var some: Id :| true;
      StepLemma(before, op, some);
      forall k
        ensures Capped(Step(before, op), k) && Within(Step(before, op), k)
      {
        StepLemma(before, op, k);
      }
    }
  }

  lemma EmptyInvariant()
    ensures Inv(EMPTY)
  {
    assert forall k :: Count(EMPTY, k) == 0;
    assert forall k :: SumBy(EMPTY.order, WeightOf(EMPTY, k)) == 0;
  }

  /** What no budget or eviction pass touches in an entry that stays. */
  ghost predicate Steady(c: Core, c': Core, r: ExecutionRef) {
    r in c'.entries ==>
      && r in c.entries
      && c'.entries[r].status == c.entries[r].status && c'.entries[r].endedAt == c.entries[r].endedAt
      && c'.entries[r].log == c.entries[r].log
      && (r in c'.lost <==> r in c.lost)
  }

  lemma EnforceSteady(c: Core, connection: Id, r: ExecutionRef)
    ensures Steady(c, Enforce(c, connection), r)
  {
    hide OverBudget;
  }

  lemma EvictSteady(c: Core, connection: Id, r: ExecutionRef)
    requires Shape(c)
    ensures Steady(c, Evict(c, connection), r) && Evict(c, connection).retained == c.retained
    ensures r in c.entries && r !in Evict(c, connection).entries ==> Evictable(c, r)
  {
    VictimsLemma(c, connection);
    EvictAllLemma(c, Victims(c, connection), connection, connection);
    hide Shape;
    hide Victims;
    hide EvictAll;
    hide Distinct;
    hide Within;
    hide Count;
  }

  /** What becomes of an entry in one step: a verdict stays, and only its own log records change its log. */
  ghost predicate EntryLaw(c: Core, c': Core, r: ExecutionRef, op: Op) {
    r in c.entries && r in c'.entries ==>
      && (Authoritative(c, r) ==>
         Authoritative(c', r) && c'.entries[r].status == c.entries[r].status
           && c'.entries[r].endedAt == c.entries[r].endedAt)
      && c'.entries[r].log == Logged(op, r, c.entries[r].log)
  }

  ghost function Logged(op: Op, r: ExecutionRef, log: ExecutionLog.Log): ExecutionLog.Log {
    if op.ApplyOp? && op.ref == r && op.event.LogRecord? then ExecutionLog.Deliver(log, op.event.entry) else log
  }

  lemma SteadyLaw(c: Core, c1: Core, c2: Core, r: ExecutionRef, op: Op)
    requires EntryLaw(c, c1, r, op) && Steady(c1, c2, r)
    ensures EntryLaw(c, c2, r, op)
  {
  }

  lemma ApplyToStateLaw(c: Core, e: ExecutionEvent, x: ExecutionRef, at: int, r: ExecutionRef)
    requires Shape(c) && x in c.entries && r in c.entries
    ensures EntryLaw(c, ApplyToState(c, e, x, at), r, ApplyOp(e, x, at))
  {
    var op := ApplyOp(e, x, at);
    hide Enforce;
    hide Evict;
    hide Next;
    hide GoodEntry;
    if Next(c.entries[x], e, at, x in c.lost).Some? {
      var c1 := AfterNext(c, e, x, at);
      AfterNextLemma(c, e, x, at, x.connection);
      AfterNextLaw(c, e, x, at, r);
      hide Shape;
      hide EntryLaw;
      hide Steady;
      PassesLaw(c, c1, x.connection, r, op);
    } else {
      NothingNext(c.entries[x], e, at, x in c.lost);
    }
  }

  lemma PassesLaw(c: Core, c1: Core, connection: Id, r: ExecutionRef, op: Op)
    requires Shape(c1) && EntryLaw(c, c1, r, op)
    ensures EntryLaw(c, Enforce(c1, connection), r, op)
            && EntryLaw(c, Evict(Enforce(c1, connection), connection), r, op)
  {
    var c2 := Enforce(c1, connection);
    hide Shape;
    hide EntryLaw;
    hide Steady;
    hide Enforce;
    hide Evict;
    EnforceLemma(c1, connection, connection);
    EnforceSteady(c1, connection, r);
    EvictSteady(c2, connection, r);
    SteadyLaw(c, c1, c2, r, op);
    SteadyLaw(c, c2, Evict(c2, connection), r, op);
  }

  lemma NothingNext(s: ExecutionState, e: ExecutionEvent, at: int, lost: bool)
    requires Next(s, e, at, lost).None?
    ensures e.LogRecord? ==> ExecutionLog.Deliver(s.log, e.entry) == s.log
  {
  }

  lemma AfterNextLaw(c: Core, e: ExecutionEvent, x: ExecutionRef, at: int, r: ExecutionRef)
    requires Shape(c) && x in c.entries && r in c.entries && Next(c.entries[x], e, at, x in c.lost).Some?
    ensures EntryLaw(c, AfterNext(c, e, x, at), r, ApplyOp(e, x, at))
  {
    assert GoodEntry(c.entries[x], x, x in c.lost);
    NextGood(c.entries[x], x, e, at, x in c.lost);
    NextStatus(c.entries[x], x, e, at, x in c.lost);
    hide Next;
    hide Shape;
    hide Payloads;
    hide ExecutionLog.Sorted;
    hide ExecutionLog.Deliver;
  }

  lemma ApplyLaw(c: Core, e: ExecutionEvent, x: ExecutionRef, at: int, r: ExecutionRef)
    requires Shape(c) && r in c.entries
    ensures EntryLaw(c, Apply(c, e, x, at), r, ApplyOp(e, x, at))
  {
    var op := ApplyOp(e, x, at);
    hide Shape;
    hide ApplyToState;
    hide Evict;
    if Discarded(c, e, x) {
      assert Apply(c, e, x, at) == c && x != r;
    } else {
      var c1 := Admit(c, e, x, at);
      AdmitLemma(c, e, x, at, x.connection);
      AdmitLaw(c, e, x, at, r);
      ApplyToStateLemma(c1, e, x, at, x.connection);
      ApplyToStateLaw(c1, e, x, at, r);
      var c2 := ApplyToState(c1, e, x, at);
      hide Admit;
      assert EntryLaw(c, c2, r, op);
      EvictLaw(c, c2, x.connection, r, op);
    }
  }

  lemma EvictLaw(c: Core, c2: Core, connection: Id, r: ExecutionRef, op: Op)
    requires Shape(c2) && EntryLaw(c, c2, r, op)
    ensures EntryLaw(c, Evict(c2, connection), r, op)
  {
    hide Shape;
    hide EntryLaw;
    hide Evict;
    EvictSteady(c2, connection, r);
    SteadyLaw(c, c2, Evict(c2, connection), r, op);
  }

  /** Admitting an event's entry touches no other entry, and of this one only whether it is vouched for. */
  lemma AdmitLaw(c: Core, e: ExecutionEvent, x: ExecutionRef, at: int, r: ExecutionRef)
    requires r in c.entries
    ensures var c1 := Admit(c, e, x, at);
            r in c1.entries && c1.entries[r] == c.entries[r] && (r in c1.lost <==> r in c.lost)
  {
  }

  /** Every operation obeys the law for every entry that stays. */
  lemma StepLaw(c: Core, op: Op, r: ExecutionRef)
    requires Shape(c) && r in c.entries
    ensures EntryLaw(c, Step(c, op), r, op)
  {
    hide Shape;
    hide EntryLaw;
    hide Apply;
    hide Register;
    hide MarkLost;
    hide Release;
    match op
    case ApplyOp(e, x, at) => ApplyLaw(c, e, x, at, r);
    case RegisterOp(x, artifact, now, jobRef, sourceDocument) => RegisterLaw(c, op, r);
    case RestoreOp(p) => RestoreLaw(c, op, r);
    case MarkLostOp(x, now) => MarkLostLaw(c, op, r);
    case ReleaseOp(x) => ReleaseLaw(c, op, r);
    case _ => HydrateLaw(c, op, r);
  }

  lemma RestoreLaw(c: Core, op: Op, r: ExecutionRef)
    requires Shape(c) && r in c.entries && op.RestoreOp?
    ensures EntryLaw(c, Step(c, op), r, op)
  {
    hide Shape;
    hide Evict;
    hide Apply;
    hide Register;
    hide MarkLost;
    hide Release;
    if op.proven.ref !in c.entries {
      AddedLaw(c, RestoredState(op.proven), r, op);
    }
  }

  lemma RegisterLaw(c: Core, op: Op, r: ExecutionRef)
    requires Shape(c) && r in c.entries && op.RegisterOp?
    ensures EntryLaw(c, Step(c, op), r, op)
  {
    if op.ref !in c.entries {
      AddedLaw(c, NewState(op.ref, Some(op.artifact), op.now).(jobRef := op.jobRef,
        sourceDocument := op.sourceDocument), r, op);
    } else {
      assert GoodEntry(c.entries[op.ref], op.ref, op.ref in c.lost);
      hide Shape;
      hide Evict;
    }
  }

  lemma MarkLostLaw(c: Core, op: Op, r: ExecutionRef)
    requires Shape(c) && r in c.entries && op.MarkLostOp?
    ensures EntryLaw(c, Step(c, op), r, op)
  {
    hide Shape;
    hide GoodEntry;
    hide Enforce;
    hide Apply;
    hide Register;
    hide RestoreCompleted;
    hide Release;
    var x := op.ref;
    if x in c.entries && !IsTerminalStatus(c.entries[x].status) {
      EntryIsGood(c, x);
      EnforceSteady(Put(c.(lost := c.lost + {x}), LostState(c.entries[x], op.now)), x.connection, r);
    }
  }

  lemma ReleaseLaw(c: Core, op: Op, r: ExecutionRef)
    requires Shape(c) && r in c.entries && op.ReleaseOp?
    ensures EntryLaw(c, Step(c, op), r, op)
  {
    var x := op.ref;
    if x in c.retained && c.retained[x] <= 1 {
      var c1 := c.(retained := c.retained - {x});
      assert Shape(c1) by {
        hide Distinct;
        hide GoodEntry;
      }
      hide Shape;
      hide Evict;
      EvictSteady(c1, x.connection, r);
    }
  }

  lemma HydrateLaw(c: Core, op: Op, r: ExecutionRef)
    requires Shape(c) && r in c.entries
    requires op.QueueOp? || op.OutputsOp? || op.ArtifactsOp? || op.SubmittedByOp? || op.RetainOp?
    ensures EntryLaw(c, Step(c, op), r, op)
  {
    hide Shape;
    hide GoodEntry;
    hide MergeOutputs;
    hide Evict;
    hide Enforce;
    hide Apply;
    hide Register;
    hide RestoreCompleted;
    hide MarkLost;
    hide Release;
    if !op.QueueOp? && op.ref in c.entries {
      EntryIsGood(c, op.ref);
    }
  }

  lemma AddedLaw(c: Core, s: ExecutionState, r: ExecutionRef, op: Op)
    requires Shape(c) && r in c.entries && s.ref !in c.entries && GoodEntry(s, s.ref, false)
    requires !(op.ApplyOp? && op.ref == r)
    ensures EntryLaw(c, Evict(Put(c.(tombs := Without(c.tombs, s.ref), unconfirmed := c.unconfirmed - {s.ref},
            lost := c.lost - {s.ref}), s), s.ref.connection), r, op)
  {
    assert c.lost - {s.ref} == c.lost && c.unconfirmed - {s.ref} == c.unconfirmed;
    AddedShape(c, s, false);
    var c1 := Added(c, s, false);
    hide Shape;
    hide Evict;
    EvictSteady(c1, s.ref.connection, r);
  }

  // ---------------------------------------------------------------------
  // The life of one entry

  ghost predicate LivesAfter(c: Core, ops: seq<Op>, r: ExecutionRef, n: int) {
    0 <= n <= |ops| ==> r in Run(c, ops[..n]).entries
  }

  ghost predicate LivesThrough(c: Core, ops: seq<Op>, r: ExecutionRef) {
    forall n :: LivesAfter(c, ops, r, n)
  }

  lemma LivedBefore(c: Core, ops: seq<Op>, r: ExecutionRef)
    requires ops != [] && LivesThrough(c, ops, r)
    ensures LivesThrough(c, ops[..|ops| - 1], r)
    ensures r in Run(c, ops).entries && r in Run(c, ops[..|ops| - 1]).entries && r in c.entries
  {
    assert LivesAfter(c, ops, r, 0) && LivesAfter(c, ops, r, |ops|) && LivesAfter(c, ops, r, |ops| - 1);
    assert ops[..|ops|] == ops && ops[..0] == [];
    var front := ops[..|ops| - 1];
    forall n
      ensures LivesAfter(c, front, r, n)
    {
      if 0 <= n <= |ops| - 1 {
        assert LivesAfter(c, ops, r, n);
        assert front[..n] == ops[..n];
      }
    }
  }

  /** An authoritative terminal verdict never changes while its entry lives. */
  lemma {:induction false} VerdictIsFinal(c: Core, ops: seq<Op>, r: ExecutionRef)
    requires Inv(c) && Authoritative(c, r) && LivesThrough(c, ops, r)
    ensures r in Run(c, ops).entries && Authoritative(Run(c, ops), r)
    ensures Run(c, ops).entries[r].status == c.entries[r].status
            && Run(c, ops).entries[r].endedAt == c.entries[r].endedAt
  {
    if ops != [] {
      var front, op := ops[..|ops| - 1], ops[|ops| - 1];
      LivedBefore(c, ops, r);
      VerdictIsFinal(c, front, r);
      RunInvariant(c, front);
      hide Step;
      StepLaw(Run(c, front), op, r);
    }
  }

  /** The log records delivered to one entry, in the order of delivery. */
  ghost function RecordsFor(ops: seq<Op>, r: ExecutionRef): seq<ExecutionLog.LogEntry> {
    if ops == [] then []
    else
      var op := ops[|ops| - 1];
      RecordsFor(ops[..|ops| - 1], r) + if op.ApplyOp? && op.ref == r && op.event.LogRecord? then [op.event.entry]
        else []
  }

  /** A live entry's log is what its records alone make of it. */
  lemma {:induction false} LogHistory(c: Core, ops: seq<Op>, r: ExecutionRef, before: seq<ExecutionLog.LogEntry>)
    requires Inv(c) && r in c.entries && LivesThrough(c, ops, r) && c.entries[r].log == ExecutionLog.DeliverAll(before)
    ensures r in Run(c, ops).entries
            && Run(c, ops).entries[r].log == ExecutionLog.DeliverAll(before + RecordsFor(ops, r))
  {
    hide Inv;
    hide Step;
    hide LivesThrough;
    hide ExecutionLog.Deliver;
    hide ExecutionLog.DeliverAll;
    if ops == [] {
      assert before + [] == before;
    } else {
      var front, op := ops[..|ops| - 1], ops[|ops| - 1];
      LivedBefore(c, ops, r);
      LogHistory(c, front, r, before);
      RunInvariant(c, front);
      LogStep(Run(c, front), op, r);
      var sofar := before + RecordsFor(front, r);
      var more := if op.ApplyOp? && op.ref == r && op.event.LogRecord? then [op.event.entry] else [];
      assert before + RecordsFor(ops, r) == sofar + more;
      DeliverMore(sofar, more);
    }
  }

  lemma DeliverMore(records: seq<ExecutionLog.LogEntry>, more: seq<ExecutionLog.LogEntry>)
    requires |more| <= 1
    ensures ExecutionLog.DeliverAll(records + more) ==
              if more == [] then ExecutionLog.DeliverAll(records)
              else ExecutionLog.Deliver(ExecutionLog.DeliverAll(records), more[0])
  {
    if more == [] {
      assert records + more == records;
    } else {
      assert (records + more)[..|records|] == records && (records + more)[|records|] == more[0];
    }
    hide ExecutionLog.Deliver;
  }

  lemma LogStep(c: Core, op: Op, r: ExecutionRef)
    requires Inv(c) && r in c.entries && r in Step(c, op).entries
    ensures Step(c, op).entries[r].log == Logged(op, r, c.entries[r].log)
  {
    hide Step;
    StepLaw(c, op, r);
  }

  /** A live entry retains a delivered record exactly when fewer than the cap of its delivered numbers exceed it. */
  lemma StoreRetainsLargest(c: Core, ops: seq<Op>, r: ExecutionRef, n: int)
    requires Inv(c) && r in c.entries && LivesThrough(c, ops, r) && c.entries[r].log == ExecutionLog.Log([], 0)
    requires n in ExecutionLog.Numbers(RecordsFor(ops, r))
    ensures r in Run(c, ops).entries
    ensures ExecutionLog.Has(Run(c, ops).entries[r].log.entries, n) <==>
              |set t | t in ExecutionLog.Numbers(RecordsFor(ops, r)) && t > n| < ExecutionLog.EXECUTION_LOG_CAP
  {
    hide Inv;
    hide LivesThrough;
    LogHistory(c, ops, r, []);
    assert [] + RecordsFor(ops, r) == RecordsFor(ops, r);
    ExecutionLog.RetainsLargest(RecordsFor(ops, r), n);
  }

  // ---------------------------------------------------------------------
  // What the two passes choose

  /** Eviction is oldest first, only what is evictable goes, and no more than the excess. */
  lemma EvictsOldest(c: Core, connection: Id, gone: ExecutionRef, kept: ExecutionRef)
    requires Shape(c)
    requires gone in c.entries && gone !in Evict(c, connection).entries
    requires kept in Evict(c, connection).entries && OnConnection(kept, connection) && Evictable(c, kept)
    ensures Evictable(c, gone) && OnConnection(gone, connection)
    ensures c.entries[gone].queuedAt <= c.entries[kept].queuedAt
    ensures Count(Evict(c, connection), connection) == EXECUTION_ENTRY_CAP
  {
    var rs := Victims(c, connection);
    VictimsLemma(c, connection);
    EvictAllLemma(c, rs, connection, connection);
    VictimsArePrefix(c, connection, gone, kept);
    hide EvictAll;
    hide Within;
    hide Distinct;
    hide Evictable;
    hide Victims;
    hide Shape;
    hide Count;
  }

  lemma VictimsArePrefix(c: Core, connection: Id, gone: ExecutionRef, kept: ExecutionRef)
    requires Shape(c) && gone in Victims(c, connection)
    requires kept in c.entries && kept !in Victims(c, connection) && OnConnection(kept, connection)
             && Evictable(c, kept)
    ensures gone in c.entries && c.entries[gone].queuedAt <= c.entries[kept].queuedAt
    ensures |Victims(c, connection)| == Count(c, connection) - EXECUTION_ENTRY_CAP
  {
    var all, n := OldestFirst(c, connection), |Victims(c, connection)|;
    OldestMembers(c, connection);
    VictimsPrefix(c, connection);
    SortByIsSorted(Filter(c.order, EvictableOf(c, connection)), QueuedOf(c));
    hide Shape;
    hide Evictable;
    hide Victims;
    hide Count;
    assert Sorted(all, QueuedOf(c));
    hide OldestFirst;
    hide Sorted;
    assert gone in all[..n] && gone in all;
    assert kept !in all[..n] && kept in all;
    PrefixSmaller(all, QueuedOf(c), n, gone, kept);
  }

  lemma OldestMembers(c: Core, connection: Id)
    requires Shape(c)
    ensures forall r ::
            r in OldestFirst(c, connection) <==> r in c.entries && OnConnection(r, connection) && Evictable(c, r)
  {
    hide Evictable;
    hide GoodEntries;
    hide Distinct;
  }

  lemma VictimsPrefix(c: Core, connection: Id)
    ensures |Victims(c, connection)| <= |OldestFirst(c, connection)|
    ensures Victims(c, connection) == OldestFirst(c, connection)[..|Victims(c, connection)|]
    ensures Victims(c, connection) != [] && |Victims(c, connection)| < |OldestFirst(c, connection)| ==>
              |Victims(c, connection)| == Count(c, connection) - EXECUTION_ENTRY_CAP
  {
    hide OldestFirst;
    hide Count;
  }

  lemma {:induction false} PrefixSumGrows(xs: seq<ExecutionRef>, w: ExecutionRef -> nat, i: nat, j: nat)
    requires i <= j <= |xs|
    ensures SumBy(xs[..i], w) <= SumBy(xs[..j], w)
  {
    if i < j {
      PrefixSumGrows(xs, w, i, j - 1);
      assert xs[..j] == xs[..j - 1] + [xs[j - 1]];
      SumAppend(xs[..j - 1], xs[j - 1], w);
    }
  }

  /**
   * Frames go oldest first: once an entry is stripped every older entry holding frames is,
   * never the newest, and never one that is not budgeted.
   */
  lemma StripsOldest(c: Core, connection: Id, stripped: ExecutionRef, older: ExecutionRef)
    requires Shape(c) && OverBudget(c, connection, stripped)
    requires Holding(c, connection, older) && Age(c, older) > Age(c, stripped)
    ensures OverBudget(c, connection, older)
    ensures Holding(c, connection, stripped)
    ensures !OverBudget(c, connection, NewestFirst(c, connection)[0])
  {
    NewestIsSpared(c, connection);
    SortByIsSorted(Filter(c.order, HoldingOf(c, connection)), AgeOf(c));
    var xs := NewestFirst(c, connection);
    assert older in xs && (stripped in xs ==> Holding(c, connection, stripped)) by { hide Holding; hide GoodEntries; }
    var i := OverBudgetIndex(c, connection, stripped);
    hide Shape;
    hide Holding;
    hide NewestFirst;
    hide OverBudget;
    hide Sorted;
    hide Over;
    hide Age;
    var j := SortedPosition(xs, AgeOf(c), i, older);
    LaterOver(xs, WeightOf(c, connection), i, j);
    OverBudgetAt(c, connection, j);
  }

  lemma OverBudgetIndex(c: Core, connection: Id, r: ExecutionRef) returns (i: nat)
    requires OverBudget(c, connection, r)
    ensures i < |NewestFirst(c, connection)| && NewestFirst(c, connection)[i] == r
    ensures Over(NewestFirst(c, connection), WeightOf(c, connection), i)
  {
    hide NewestFirst;
    i :| 0 < i < |NewestFirst(c, connection)| && NewestFirst(c, connection)[i] == r
         && SumBy(NewestFirst(c, connection)[..i + 1], WeightOf(c, connection)) > TERMINAL_PREVIEW_BYTE_BUDGET;
  }

  lemma OverBudgetAt(c: Core, connection: Id, i: nat)
    requires Over(NewestFirst(c, connection), WeightOf(c, connection), i)
    ensures OverBudget(c, connection, NewestFirst(c, connection)[i])
  {
    hide NewestFirst;
  }

  lemma LaterOver(xs: seq<ExecutionRef>, w: ExecutionRef -> nat, i: nat, j: nat)
    requires Over(xs, w, i) && i < j < |xs|
    ensures Over(xs, w, j)
  {
    PrefixSumGrows(xs, w, i + 1, j + 1);
  }

  lemma NewestIsSpared(c: Core, connection: Id)
    requires Shape(c) && NewestFirst(c, connection) != []
    ensures !OverBudget(c, connection, NewestFirst(c, connection)[0])
  {
    OverIsOverBudget(c, connection, 0);
    hide Shape;
    hide OverBudget;
  }

  /** `r` leaves only unpinned, and unconfirmed or authoritatively over, or ended by this very operation. */
  ghost predicate Spares(c: Core, c': Core, r: ExecutionRef, ended: bool) {
    && c'.retained == c.retained
    && (r in c'.unconfirmed ==> r in c.unconfirmed)
    && (r !in c'.entries ==> r !in c.retained && (r in c.unconfirmed || Authoritative(c, r) || ended))
    && (Authoritative(c', r) ==> Authoritative(c, r) || ended)
  }

  lemma SparesBoth(c: Core, c1: Core, c2: Core, r: ExecutionRef, first: bool, second: bool)
    requires Spares(c, c1, r, first) && Spares(c1, c2, r, second) && r in c1.entries
    ensures Spares(c, c2, r, first || second)
  {
  }

  lemma EvictSpares(c: Core, connection: Id, r: ExecutionRef)
    requires Shape(c) && r in c.entries
    ensures Spares(c, Evict(c, connection), r, false)
  {
    VictimsLemma(c, connection);
    EvictAllLemma(c, Victims(c, connection), connection, connection);
    var rs, c' := Victims(c, connection), Evict(c, connection);
    assert r in rs ==> Evictable(c, r);
    EvictLemma(c, connection, connection);
    assert r in c'.unconfirmed ==> r in c'.entries;
    hide Victims;
    hide EvictAll;
    hide Shape;
    hide Distinct;
    hide Within;
    hide Count;
  }

  lemma EnforceSpares(c: Core, connection: Id, r: ExecutionRef)
    requires r in c.entries
    ensures Spares(c, Enforce(c, connection), r, false)
  {
    hide OverBudget;
  }

  lemma AfterNextSpares(c: Core, e: ExecutionEvent, x: ExecutionRef, at: int, r: ExecutionRef)
    requires Shape(c) && x in c.entries && r in c.entries && Next(c.entries[x], e, at, x in c.lost).Some?
    ensures Spares(c, AfterNext(c, e, x, at), r, x == r && IsTerminalEvent(e)) && r in AfterNext(c, e, x, at).entries
  {
    assert GoodEntry(c.entries[x], x, x in c.lost);
    NextGood(c.entries[x], x, e, at, x in c.lost);
    NextStatus(c.entries[x], x, e, at, x in c.lost);
    hide Next;
    hide Shape;
    hide Payloads;
    hide ExecutionLog.Sorted;
  }

  lemma ApplyToStateSpares(c: Core, e: ExecutionEvent, x: ExecutionRef, at: int, r: ExecutionRef)
    requires Shape(c) && x in c.entries && r in c.entries
    ensures Spares(c, ApplyToState(c, e, x, at), r, x == r && IsTerminalEvent(e))
  {
    hide Enforce;
    hide Evict;
    hide Next;
    hide Shape;
    if Next(c.entries[x], e, at, x in c.lost).Some? {
      hide Spares;
      var c1, ended := AfterNext(c, e, x, at), x == r && IsTerminalEvent(e);
      AfterNextSpares(c, e, x, at, r);
      AfterNextLemma(c, e, x, at, x.connection);
      PassesSpare(c, c1, x.connection, r, ended);
    }
  }

  lemma PassesSpare(c: Core, c1: Core, connection: Id, r: ExecutionRef, ended: bool)
    requires Shape(c1) && r in c1.entries && Spares(c, c1, r, ended)
    ensures Spares(c, Enforce(c1, connection), r, ended)
            && Spares(c, Evict(Enforce(c1, connection), connection), r, ended)
  {
    var c2 := Enforce(c1, connection);
    EnforceLemma(c1, connection, connection);
    hide Shape;
    hide Spares;
    hide Evict;
    EnforceSpares(c1, connection, r);
    EvictSpares(c2, connection, r);
    hide Enforce;
    SparesBoth(c, c1, c2, r, ended, false);
    SparesBoth(c, c2, Evict(c2, connection), r, ended, false);
  }

  lemma ApplySpares(c: Core, e: ExecutionEvent, x: ExecutionRef, at: int, r: ExecutionRef)
    requires Shape(c) && r in c.entries
    ensures Spares(c, Apply(c, e, x, at), r, x == r && IsTerminalEvent(e))
  {
    var ended := x == r && IsTerminalEvent(e);
    if !Discarded(c, e, x) {
      var c1 := Admit(c, e, x, at);
      AdmitLemma(c, e, x, at, x.connection);
      AdmitSpares(c, e, x, at, r);
      hide Spares;
      hide Shape;
      hide Admit;
      ApplyToStateLemma(c1, e, x, at, x.connection);
      ApplyToStateSpares(c1, e, x, at, r);
      var c2 := ApplyToState(c1, e, x, at);
      SparesBoth(c, c1, c2, r, false, ended);
      hide ApplyToState;
      hide Evict;
      EvictedSpares(c, c2, x.connection, r, ended);
    }
  }

  lemma AdmitSpares(c: Core, e: ExecutionEvent, x: ExecutionRef, at: int, r: ExecutionRef)
    requires r in c.entries
    ensures Spares(c, Admit(c, e, x, at), r, false) && r in Admit(c, e, x, at).entries
  {
  }

  lemma EvictedSpares(c: Core, c2: Core, connection: Id, r: ExecutionRef, ended: bool)
    requires Shape(c2) && Spares(c, c2, r, ended)
    ensures Spares(c, Evict(c2, connection), r, ended)
  {
    if r in c2.entries {
      EvictSpares(c2, connection, r);
      hide Spares;
      hide Evict;
      hide Shape;
      SparesBoth(c, c2, Evict(c2, connection), r, ended, false);
    } else {
      EvictSteady(c2, connection, r);
      EvictUnconfirmed(c2, connection, r);
      hide Evict;
      hide Shape;
    }
  }

  lemma EvictUnconfirmed(c: Core, connection: Id, r: ExecutionRef)
    requires Shape(c)
    ensures r in Evict(c, connection).unconfirmed ==> r in c.unconfirmed
  {
    EvictLemma(c, connection, connection);
    VictimsLemma(c, connection);
    EvictAllLemma(c, Victims(c, connection), connection, connection);
    hide Victims;
    hide EvictAll;
    hide Distinct;
    hide Within;
    hide Count;
    hide GoodEntry;
  }

  lemma AddedSpares(c: Core, s: ExecutionState, r: ExecutionRef)
    requires Shape(c) && r in c.entries && s.ref !in c.entries && GoodEntry(s, s.ref, false)
    ensures var c' := Evict(Put(c.(tombs := Without(c.tombs, s.ref), unconfirmed := c.unconfirmed - {s.ref},
            lost := c.lost - {s.ref}), s), s.ref.connection);
            Spares(c, c', r, false)
  {
    assert c.lost - {s.ref} == c.lost && c.unconfirmed - {s.ref} == c.unconfirmed;
    AddedShape(c, s, false);
    var c1 := Added(c, s, false);
    assert Spares(c, c1, r, false);
    hide Shape;
    hide Evict;
    hide Spares;
    EvictedSpares(c, c1, s.ref.connection, r, false);
  }

  /**
   * Queued, running, provisionally lost and pinned entries are never evicted, unless the entry
   * is unconfirmed and unpinned, or the operation itself ends its run or drops its last pin.
   */
  lemma ProtectedSurvives(c: Core, op: Op, r: ExecutionRef)
    requires Shape(c) && r in c.entries && r !in Step(c, op).entries
    ensures r !in c.retained || (op.ReleaseOp? && op.ref == r && c.retained[r] == 1)
    ensures r in c.unconfirmed || Authoritative(c, r) || (op.ApplyOp? && op.ref == r && IsTerminalEvent(op.event))
  {
    hide Shape;
    hide Evict;
    hide Apply;
    hide Enforce;
    match op
    case ApplyOp(e, x, at) =>
      ApplySpares(c, e, x, at, r);
    case RegisterOp(x, artifact, now, jobRef, sourceDocument) => AdmissionSpares(c, op, r);
    case RestoreOp(p) => AdmissionSpares(c, op, r);
    case ReleaseOp(x) => ReleaseSpares(c, x, r);
    case _ => OthersKeep(c, op, r);
  }

  lemma AdmissionSpares(c: Core, op: Op, r: ExecutionRef)
    requires Shape(c) && r in c.entries && r !in Step(c, op).entries && (op.RegisterOp? || op.RestoreOp?)
    ensures r !in c.retained && (r in c.unconfirmed || Authoritative(c, r))
  {
    hide Evict;
    var s := if op.RegisterOp?
      then NewState(op.ref, Some(op.artifact), op.now).(jobRef := op.jobRef, sourceDocument := op.sourceDocument)
             else RestoredState(op.proven);
    assert s.ref !in c.entries && GoodEntry(s, s.ref, false);
    hide Shape;
    AddedSpares(c, s, r);
  }

  lemma OthersKeep(c: Core, op: Op, r: ExecutionRef)
    requires r in c.entries && (op.QueueOp? || op.OutputsOp? || op.ArtifactsOp? || op.SubmittedByOp? || op.MarkLostOp?
             || op.RetainOp?)
    ensures r in Step(c, op).entries
  {
    hide OverBudget;
  }

  lemma ReleaseSpares(c: Core, x: ExecutionRef, r: ExecutionRef)
    requires Shape(c) && r in c.entries && r !in Release(c, x).entries
    ensures r !in c.retained || (x == r && c.retained[r] == 1)
    ensures r in c.unconfirmed || Authoritative(c, r)
  {
    hide Evict;
    var c1 := c.(retained := c.retained - {x});
    assert x in c.retained && c.retained[x] <= 1 && Release(c, x) == Evict(c1, x.connection);
    UnpinShape(c, x);
    hide Shape;
    EvictSpares(c1, x.connection, r);
  }

  lemma UnpinShape(c: Core, x: ExecutionRef)
    requires Shape(c) && x in c.retained
    ensures Shape(c.(retained := c.retained - {x})) && c.retained[x] >= 1
  {
    hide Distinct;
    hide GoodEntry;
  }
}
