/**
 * The retained log of one execution: a sequence-sorted, capped buffer fed by records that
 * arrive in any order and any number of times.
 */
module ExecutionLog {
  import opened Identity

  const EXECUTION_LOG_CAP: nat := 2000

  /** One record; everything but its per-run sequence number is opaque. */
  datatype LogEntry = LogEntry(number: int, body: Id)

  datatype Log = Log(entries: seq<LogEntry>, dropped: nat)

  ghost predicate Sorted(logs: seq<LogEntry>) {
    forall i, j :: 0 <= i < j < |logs| ==> logs[i].number < logs[j].number
  }

  predicate Has(logs: seq<LogEntry>, n: int) {
    exists i :: 0 <= i < |logs| && logs[i].number == n
  }

  /** How many leading records precede `n`. */
  function Position(logs: seq<LogEntry>, n: int): (k: nat)
    ensures k <= |logs|
    ensures forall i :: 0 <= i < k ==> logs[i].number < n
    ensures k < |logs| ==> logs[k].number >= n
  {
    if logs == [] || logs[0].number >= n then 0 else 1 + Position(logs[1..], n)
  }

  /** A duplicate, or a record older than a full buffer, changes nothing; any other is inserted in order. */
  function Deliver(log: Log, e: LogEntry): Log {
    var i := Position(log.entries, e.number);
    if Has(log.entries, e.number) || (i == 0 && |log.entries| >= EXECUTION_LOG_CAP) then log
    else
      var inserted := log.entries[..i] + [e] + log.entries[i..];
      var excess := if |inserted| > EXECUTION_LOG_CAP then |inserted| - EXECUTION_LOG_CAP else 0;
      Log(inserted[excess..], log.dropped + excess)
  }

  /** Binary search: the insertion index, or -1 for a number already retained. */
  method LogInsertionIndex(logs: seq<LogEntry>, n: int) returns (index: int)
    requires Sorted(logs)
    ensures index == -1 <==> Has(logs, n)
    ensures index != -1 ==> index == Position(logs, n)
  {
    if |logs| == 0 || n > logs[|logs| - 1].number {
      return |logs|;
    }
    var low, high := 0, |logs| - 1;
    while low <= high
      invariant 0 <= low <= high + 1 <= |logs|
      invariant forall i :: 0 <= i < low ==> logs[i].number < n
      invariant forall i :: high < i < |logs| ==> logs[i].number > n
    {
      var mid := (low + high) / 2;
      var at := logs[mid].number;
      if at == n {
        return -1;
      }
      if at < n { low := mid + 1; } else { high := mid - 1; }
    }
    assert low < |logs| ==> logs[low].number > n;
    assert Position(logs, n) < |logs| ==> logs[Position(logs, n)].number >= n;
    return low;
  }

  /** The buffer update of one log event. */
  method AddRecord(log: Log, e: LogEntry) returns (log': Log)
    requires Sorted(log.entries)
    ensures log' == Deliver(log, e)
  {
    var index := LogInsertionIndex(log.entries, e.number);
    if index < 0 || (index == 0 && |log.entries| >= EXECUTION_LOG_CAP) {
      return log;
    }
    var inserted := log.entries[..index] + [e] + log.entries[index..];
    var dropped := if |inserted| - EXECUTION_LOG_CAP > 0 then |inserted| - EXECUTION_LOG_CAP else 0;
    log' := Log(if dropped > 0 then inserted[dropped..] else inserted, log.dropped + dropped);
  }

  // ---------------------------------------------------------------------
  // Any sequence of deliveries

  function DeliverAll(records: seq<LogEntry>): Log {
    if records == [] then Log([], 0) else Deliver(DeliverAll(records[..|records| - 1]), records[|records| - 1])
  }

  /** How many deliveries changed the buffer. */
  function Accepted(records: seq<LogEntry>): nat {
    if records == [] then 0
    else
      var before := DeliverAll(records[..|records| - 1]);
      Accepted(records[..|records| - 1]) + if Deliver(before, records[|records| - 1]) != before then 1 else 0
  }

  ghost function Numbers(records: seq<LogEntry>): set<int> {
    set i | 0 <= i < |records| :: records[i].number
  }

  /** Everything delivered but not retained is older than a full buffer. */
  ghost predicate Newest(logs: seq<LogEntry>, delivered: set<int>) {
    && |logs| <= EXECUTION_LOG_CAP
    && (forall i :: 0 <= i < |logs| ==> logs[i].number in delivered)
    && (forall n :: n in delivered && !Has(logs, n) ==> |logs| == EXECUTION_LOG_CAP && n < logs[0].number)
  }

  lemma DeliverSorted(log: Log, e: LogEntry)
    requires Sorted(log.entries)
    ensures Sorted(Deliver(log, e).entries)
  {
  }

  lemma InsertedHas(logs: seq<LogEntry>, i: nat, e: LogEntry, n: int)
    requires i <= |logs|
    ensures Has(logs[..i] + [e] + logs[i..], n) <==> n == e.number || Has(logs, n)
  {
    var inserted := logs[..i] + [e] + logs[i..];
    assert inserted[i] == e;
    if Has(logs, n) {
      var k :| 0 <= k < |logs| && logs[k].number == n;
      assert inserted[if k < i then k else k + 1].number == n;
    }
    if Has(inserted, n) {
      var k :| 0 <= k < |inserted| && inserted[k].number == n;
      assert k != i ==> logs[if k < i then k else k - 1].number == n;
    }
  }

  lemma TailHas(logs: seq<LogEntry>, n: int)
    requires Sorted(logs) && logs != []
    ensures Has(logs[1..], n) <==> Has(logs, n) && n != logs[0].number
  {
    if Has(logs, n) && n != logs[0].number {
      var k :| 0 <= k < |logs| && logs[k].number == n;
      assert logs[1..][k - 1].number == n;
    }
    if Has(logs[1..], n) {
      var k :| 0 <= k < |logs[1..]| && logs[1..][k].number == n;
      assert logs[k + 1].number == n;
    }
  }

  lemma InsertSorted(logs: seq<LogEntry>, e: LogEntry)
    requires Sorted(logs) && !Has(logs, e.number)
    ensures var i := Position(logs, e.number);
            Sorted(logs[..i] + [e] + logs[i..])
  {
    var i := Position(logs, e.number);
    if i < |logs| {
      assert logs[i].number != e.number;
    }
  }

  ghost predicate AllDelivered(logs: seq<LogEntry>, delivered: set<int>) {
    forall n :: Has(logs, n) ==> n in delivered
  }

  /** `Newest` in terms of membership. */
  lemma NewestFrom(logs: seq<LogEntry>, delivered: set<int>)
    requires |logs| <= EXECUTION_LOG_CAP && AllDelivered(logs, delivered)
    requires forall n :: n in delivered && !Has(logs, n) ==> |logs| == EXECUTION_LOG_CAP && n < logs[0].number
    ensures Newest(logs, delivered)
  {
    forall i | 0 <= i < |logs|
      ensures logs[i].number in delivered
    {
      assert Has(logs, logs[i].number);
    }
  }

  /** Inserting a new number into a buffer with room, or into a full one behind its oldest record. */
  lemma InsertNewest(logs: seq<LogEntry>, e: LogEntry, delivered: set<int>)
    requires Sorted(logs) && Newest(logs, delivered) && !Has(logs, e.number)
    requires Position(logs, e.number) == 0 ==> |logs| < EXECUTION_LOG_CAP
    ensures var i := Position(logs, e.number);
            var inserted := logs[..i] + [e] + logs[i..];
            Newest(if |logs| == EXECUTION_LOG_CAP then inserted[1..] else inserted, delivered + {e.number})
  {
    var i := Position(logs, e.number);
    var inserted := logs[..i] + [e] + logs[i..];
    InsertSorted(logs, e);
    var full := |logs| == EXECUTION_LOG_CAP;
    var after := if full then inserted[1..] else inserted;
    assert full ==> i > 0 && inserted[0] == logs[0] && after[0] == inserted[1] && logs[0].number < after[0].number;
    forall n
      ensures Has(after, n) <==> (n == e.number || Has(logs, n)) && (full ==> n != logs[0].number)
    {
      InsertedHas(logs, i, e, n);
      TailHas(inserted, n);
    }
    assert full ==> e.number != logs[0].number;
    MembersDelivered(logs, delivered);
    hide Has;
    hide Position;
    hide Sorted;
    NewestFrom(after, delivered + {e.number});
  }

  lemma MembersDelivered(logs: seq<LogEntry>, delivered: set<int>)
    requires Newest(logs, delivered)
    ensures AllDelivered(logs, delivered)
  {
  }

  lemma DeliverNewest(log: Log, e: LogEntry, delivered: set<int>)
    requires Sorted(log.entries) && Newest(log.entries, delivered)
    ensures Newest(Deliver(log, e).entries, delivered + {e.number})
  {
    var i := Position(log.entries, e.number);
    if Has(log.entries, e.number) {
      var k :| 0 <= k < |log.entries| && log.entries[k].number == e.number;
      assert delivered + {e.number} == delivered;
    } else if i == 0 && |log.entries| >= EXECUTION_LOG_CAP {
    } else {
      InsertNewest(log.entries, e, delivered);
      var inserted := log.entries[..i] + [e] + log.entries[i..];
      assert inserted[0..] == inserted;
      hide Newest;
    }
  }

  /** The buffer after any deliveries: sorted, capped, and the newest numbers delivered. */
  lemma {:induction false} LogInvariant(records: seq<LogEntry>)
    ensures Sorted(DeliverAll(records).entries)
    ensures Newest(DeliverAll(records).entries, Numbers(records))
  {
    if records != [] {
      var front, e := records[..|records| - 1], records[|records| - 1];
      LogInvariant(front);
      DeliverSorted(DeliverAll(front), e);
      DeliverNewest(DeliverAll(front), e, Numbers(front));
      assert Numbers(records) == Numbers(front) + {e.number} by {
        assert forall i :: 0 <= i < |front| ==> front[i] == records[i];
      }
    }
  }

  lemma {:induction false} SortedSize(logs: seq<LogEntry>)
    requires Sorted(logs)
    ensures |Numbers(logs)| == |logs|
  {
    if logs != [] {
      var front, e := logs[..|logs| - 1], logs[|logs| - 1];
      SortedSize(front);
      assert Numbers(logs) == Numbers(front) + {e.number} by {
        assert forall i :: 0 <= i < |front| ==> front[i] == logs[i];
      }
      assert e.number !in Numbers(front);
    }
  }

  lemma {:induction false} SubsetSize(a: set<int>, b: set<int>)
    requires a <= b
    ensures |a| <= |b|
  {
    assert b == a + (b - a);
  }

  /**
   * A delivered number is retained exactly when fewer than the cap of the distinct delivered
   * numbers exceed it, whatever the order and duplication of delivery.
   */
  lemma RetainsLargest(records: seq<LogEntry>, n: int)
    requires n in Numbers(records)
    ensures Has(DeliverAll(records).entries, n) <==> |set t | t in Numbers(records) && t > n| < EXECUTION_LOG_CAP
  {
    LogInvariant(records);
    var logs := DeliverAll(records).entries;
    SortedSize(logs);
    NewestCount(logs, Numbers(records), n);
  }

  lemma NewestCount(logs: seq<LogEntry>, delivered: set<int>, n: int)
    requires Sorted(logs) && Newest(logs, delivered) && n in delivered && |Numbers(logs)| == |logs|
    ensures Has(logs, n) <==> |set t | t in delivered && t > n| < EXECUTION_LOG_CAP
  {
    var above := set t | t in delivered && t > n;
    if Has(logs, n) {
      forall t | t in above
        ensures t in Numbers(logs) - {n}
      {
        assert Has(logs, t);
      }
      SubsetSize(above, Numbers(logs) - {n});
    } else {
      SubsetSize(Numbers(logs), above);
    }
  }

  /** Delivery order and repetition do not matter to which numbers are retained. */
  lemma OrderIrrelevant(a: seq<LogEntry>, b: seq<LogEntry>, n: int)
    requires Numbers(a) == Numbers(b)
    ensures Has(DeliverAll(a).entries, n) <==> Has(DeliverAll(b).entries, n)
  {
    LogInvariant(a);
    LogInvariant(b);
    if n in Numbers(a) {
      RetainsLargest(a, n);
      RetainsLargest(b, n);
    }
  }

  /** A retained record is the first delivery of its number. */
  lemma {:induction false} RetainsFirstDelivery(records: seq<LogEntry>, e: LogEntry)
    requires e in DeliverAll(records).entries
    ensures exists k :: 0 <= k < |records| && records[k] == e && forall j ::
            0 <= j < k ==> records[j].number != e.number
  {
    var front, last := records[..|records| - 1], records[|records| - 1];
    LogInvariant(front);
    assert forall j :: 0 <= j < |front| ==> front[j] == records[j];
    if e in DeliverAll(front).entries {
      hide Deliver;
      RetainsFirstDelivery(front, e);
      var k :| 0 <= k < |front| && front[k] == e && forall j :: 0 <= j < k ==> front[j].number != e.number;
      assert records[k] == e;
    } else {
      NewlyRetained(DeliverAll(front), last, e, Numbers(front));
      assert forall j :: 0 <= j < |front| ==> front[j].number in Numbers(front);
      assert records[|front|] == e;
    }
  }

  /** A delivery adds at most the delivered record, and only for a number not delivered before. */
  lemma NewlyRetained(log: Log, last: LogEntry, e: LogEntry, delivered: set<int>)
    requires Sorted(log.entries) && Newest(log.entries, delivered)
    requires e in Deliver(log, last).entries && e !in log.entries
    ensures e == last && e.number !in delivered
  {
    var i := Position(log.entries, last.number);
    var inserted := log.entries[..i] + [last] + log.entries[i..];
    assert e in inserted;
    assert forall x :: x in inserted ==> x == last || x in log.entries;
    assert !Has(log.entries, e.number);
    assert i > 0 || |log.entries| < EXECUTION_LOG_CAP;
    assert i > 0 ==> log.entries[0].number < e.number;
  }

  /** Retained plus dropped records are exactly the accepted deliveries. */
  lemma {:induction false} Accounting(records: seq<LogEntry>)
    ensures |DeliverAll(records).entries| + DeliverAll(records).dropped == Accepted(records)
  {
    if records != [] {
      Accounting(records[..|records| - 1]);
    }
  }
}
