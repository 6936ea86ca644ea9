/** What becomes of each copied net: created under a free name, merged into a net of the same name, or dropped. */
module NetPastes {
  import opened Identity
  import opened Ordered
  import opened Reroute

  /** A base name alone, or with `_2`, `_3`, ... appended; the base alone has suffix 1. */
  datatype Name = Name(base: Id, suffix: nat)

  datatype NetRecord = NetRecord(base: Id, source: PortRef, sourceType: Id, sinks: seq<PortRef>)

  datatype ExistingNet = ExistingNet(id: Id, lowered: Id, source: PortRef)

  datatype Destination = Destination(nets: seq<ExistingNet>, nodeTypes: map<Id, Id>)

  datatype Action = Skip | Create(name: Name, sourceCopied: bool) | Merge(net: Id)

  /** Names are compared in lower case; names of one base with different suffixes stay apart. */
  ghost predicate SuffixesApart(lower: Name -> Id) {
    forall b, i, j :: lower(Name(b, i)) == lower(Name(b, j)) ==> i == j
  }

  ghost predicate TakenUpTo(lower: Name -> Id, base: Id, n: nat, taken: set<Id>) {
    forall i :: 1 <= i <= n ==> lower(Name(base, i)) in taken
  }

  lemma {:induction false} SuffixesBounded(lower: Name -> Id, base: Id, n: nat, taken: set<Id>)
    requires SuffixesApart(lower) && TakenUpTo(lower, base, n, taken)
    ensures n <= |taken|
  {
    if n > 0 {
      var last := lower(Name(base, n));
      SuffixesBounded(lower, base, n - 1, taken - {last});
      assert taken == (taken - {last}) + {last};
    }
  }

  /** The first free name of a base; the search always ends. */
  method FreeName(lower: Name -> Id, base: Id, taken: set<Id>) returns (name: Name)
    requires SuffixesApart(lower)
    ensures name.base == base && name.suffix >= 1 && lower(name) !in taken
    ensures TakenUpTo(lower, base, name.suffix - 1, taken)
  {
    name := Name(base, 1);
    while lower(name) in taken
      invariant name.base == base && name.suffix >= 1 && TakenUpTo(lower, base, name.suffix - 1, taken)
      decreases |taken| + 1 - name.suffix
    {
      SuffixesBounded(lower, base, name.suffix, taken);
      name := name.(suffix := name.suffix + 1);
    }
  }

  function Named(nets: seq<ExistingNet>, lowered: Id): Option<ExistingNet> {
    if nets == [] then None else if nets[0].lowered == lowered then Some(nets[0]) else Named(nets[1..], lowered)
  }

  /** The first net of the name, if its source is the one recorded. */
  function Compatible(lower: Name -> Id, d: Destination, r: NetRecord): Option<Id> {
    match Named(d.nets, lower(Name(r.base, 1)))
    case None => None
    case Some(net) =>
      if Lookup(d.nodeTypes, net.source.node) == Some(r.sourceType) && net.source.port == r.source.port
        && net.source.members == r.source.members
      then Some(net.id) else None
  }

  /** What each record calls for, up to the name of a created net. */
  ghost predicate Calls(lower: Name -> Id, d: Destination, copied: set<Id>, r: NetRecord, a: Action) {
    var anySink := exists s :: s in r.sinks && s.node in copied;
    if r.source.node in copied then a.Create? && a.sourceCopied && a.name.base == r.base
    else if !anySink then a.Skip?
    else if Compatible(lower, d, r).Some? then a == Merge(Compatible(lower, d, r).value)
    else if Lookup(d.nodeTypes, r.source.node) == Some(r.sourceType)
      then a.Create? && !a.sourceCopied && a.name.base == r.base
    else a.Skip?
  }

  function NamesOf(nets: seq<ExistingNet>): set<Id> {
    set i | 0 <= i < |nets| :: nets[i].lowered
  }

  /** Created names differ, in lower case, from every net's name and from each other. */
  ghost predicate NamesFresh(lower: Name -> Id, d: Destination, actions: seq<Action>) {
    && (forall i :: 0 <= i < |actions| && actions[i].Create? ==> lower(actions[i].name) !in NamesOf(d.nets))
    && (forall i, j ::
       0 <= i < j < |actions| && actions[i].Create? && actions[j].Create? ==>
         lower(actions[i].name) != lower(actions[j].name))
  }

  /** The `k`-th net is the first of the record's name, and its source is the recorded one. */
  ghost predicate Joins(lower: Name -> Id, d: Destination, r: NetRecord, k: int) {
    && 0 <= k < |d.nets| && d.nets[k].lowered == lower(Name(r.base, 1))
    && (forall j :: 0 <= j < k ==> d.nets[j].lowered != lower(Name(r.base, 1)))
    && d.nets[k].source.node in d.nodeTypes && d.nodeTypes[d.nets[k].source.node] == r.sourceType
    && d.nets[k].source.port == r.source.port && d.nets[k].source.members == r.source.members
  }

  lemma {:induction false} NamedFirst(nets: seq<ExistingNet>, lowered: Id)
    ensures Named(nets, lowered).None? <==> forall k :: 0 <= k < |nets| ==> nets[k].lowered != lowered
    ensures Named(nets, lowered).Some? ==>
            exists k :: 0 <= k < |nets| && nets[k] == Named(nets, lowered).value && nets[k].lowered == lowered
                        && forall j :: 0 <= j < k ==> nets[j].lowered != lowered
  {
    if nets != [] && nets[0].lowered != lowered {
      NamedFirst(nets[1..], lowered);
      assert forall k :: 1 <= k < |nets| ==> nets[k] == nets[1..][k - 1];
      if Named(nets[1..], lowered).Some? {
        var k :| 0 <= k < |nets[1..]| && nets[1..][k] == Named(nets[1..], lowered).value
                 && nets[1..][k].lowered == lowered && forall j :: 0 <= j < k ==> nets[1..][j].lowered != lowered;
        assert nets[k + 1] == Named(nets, lowered).value;
      }
    }
  }

  /** Which record makes a net with its copied source, joins a net, or makes one that keeps its source. */
  lemma ResolvedExactly(lower: Name -> Id, d: Destination, copied: set<Id>, r: NetRecord, a: Action)
    requires Calls(lower, d, copied, r, a)
    ensures a.Create? && a.sourceCopied <==> r.source.node in copied
    ensures a.Merge? <==>
            r.source.node !in copied && (exists s :: s in r.sinks && s.node in copied) && exists k ::
              Joins(lower, d, r, k)
    ensures forall k :: Joins(lower, d, r, k) && a.Merge? ==> a.net == d.nets[k].id
    ensures a.Create? && !a.sourceCopied <==>
            && r.source.node !in copied && (exists s :: s in r.sinks && s.node in copied)
            && (forall k :: !Joins(lower, d, r, k))
            && r.source.node in d.nodeTypes && d.nodeTypes[r.source.node] == r.sourceType
    ensures a.Create? ==> a.name.base == r.base
  {
    var lowered := lower(Name(r.base, 1));
    NamedFirst(d.nets, lowered);
    if Named(d.nets, lowered).Some? {
      var k :| 0 <= k < |d.nets| && d.nets[k] == Named(d.nets, lowered).value && d.nets[k].lowered == lowered
               && forall j :: 0 <= j < k ==> d.nets[j].lowered != lowered;
      assert Compatible(lower, d, r).Some? <==> Joins(lower, d, r, k);
      assert forall i :: Joins(lower, d, r, i) ==> i == k;
    }
  }

  ghost predicate CreatedBefore(lower: Name -> Id, actions: seq<Action>, n: nat, lowered: Id) {
    exists k :: 0 <= k < n && k < |actions| && actions[k].Create? && lower(actions[k].name) == lowered
  }

  /** A created name has the least suffix that neither a net nor an earlier creation took. */
  ghost predicate NamesLeast(lower: Name -> Id, d: Destination, actions: seq<Action>) {
    forall i, j :: 0 <= i < |actions| && actions[i].Create? && 1 <= j < actions[i].name.suffix ==>
                     lower(Name(actions[i].name.base, j)) in NamesOf(d.nets)
                     || CreatedBefore(lower, actions, i, lower(Name(actions[i].name.base, j)))
  }

  /** Whether a record makes a net of its own, rather than joining one or being dropped. */
  predicate Makes(lower: Name -> Id, d: Destination, copied: set<Id>, r: NetRecord) {
    r.source.node in copied
    || ((exists s :: s in r.sinks && s.node in copied)
        && Compatible(lower, d, r).None?
        && Lookup(d.nodeTypes, r.source.node) == Some(r.sourceType))
  }

  function MakesOf(lower: Name -> Id, d: Destination, copied: set<Id>): NetRecord -> bool {
    (r: NetRecord) => Makes(lower, d, copied, r)
  }

  /** How many nets a paste creates. */
  function CreatedNets(lower: Name -> Id, d: Destination, copied: set<Id>, records: seq<NetRecord>): nat {
    |Filter(records, MakesOf(lower, d, copied))|
  }

  function IsCreate(): Action -> bool {
    (a: Action) => a.Create?
  }

  ghost predicate Answers(lower: Name -> Id, d: Destination, copied: set<Id>, records: seq<NetRecord>,
                          actions: seq<Action>)
  {
    |actions| == |records| && forall i :: 0 <= i < |records| ==> Calls(lower, d, copied, records[i], actions[i])
  }

  lemma CallsMakes(lower: Name -> Id, d: Destination, copied: set<Id>, r: NetRecord, a: Action)
    requires Calls(lower, d, copied, r, a)
    ensures a.Create? <==> Makes(lower, d, copied, r)
  {
  }

  /** However the names come out, as many nets are created as records make one. */
  lemma {:induction false} CreationsCounted(lower: Name -> Id, d: Destination, copied: set<Id>,
                                            records: seq<NetRecord>, actions: seq<Action>)
    requires Answers(lower, d, copied, records, actions)
    ensures |Filter(actions, IsCreate())| == CreatedNets(lower, d, copied, records)
    decreases |records|
  {
    hide Compatible;
    hide Makes;
    hide Calls;
    if records == [] {
      assert Filter(actions, IsCreate()) == [];
    } else {
      var front, last := records[..|records| - 1], records[|records| - 1];
      var before, action := actions[..|actions| - 1], actions[|actions| - 1];
      assert records == front + [last] && actions == before + [action];
      CreationsCounted(lower, d, copied, front, before);
      FilterAppend(front, last, MakesOf(lower, d, copied));
      FilterAppend(before, action, IsCreate());
      CallsMakes(lower, d, copied, last, action);
    }
  }

  method FindNet(nets: seq<ExistingNet>, lowered: Id) returns (net: Option<ExistingNet>)
    ensures net == Named(nets, lowered)
  {
    assert nets[0..] == nets;
    for i := 0 to |nets|
      invariant Named(nets, lowered) == Named(nets[i..], lowered)
    {
      if nets[i].lowered == lowered {
        return Some(nets[i]);
      }
      assert nets[i..][1..] == nets[i + 1..];
    }
    return None;
  }

  /** One record's outcome. */
  method Resolve(lower: Name -> Id, d: Destination, copied: set<Id>, r: NetRecord, taken: set<Id>) returns (a: Action)
    requires SuffixesApart(lower)
    ensures Calls(lower, d, copied, r, a)
    ensures a.Create? ==> a.name.base == r.base
    ensures a.Create? ==>
            lower(a.name) !in taken && a.name.suffix >= 1 && TakenUpTo(lower, r.base, a.name.suffix - 1, taken)
  {
    var sinks := set s | s in r.sinks && s.node in copied;
    assert sinks == {} <==> !exists s :: s in r.sinks && s.node in copied by {
      if sinks != {} {
        var s :| s in sinks;
      }
      if exists s :: s in r.sinks && s.node in copied {
        var s :| s in r.sinks && s.node in copied;
        assert s in sinks;
      }
    }
    var sourceCopied := r.source.node in copied;
    if !sourceCopied && sinks == {} {
      return Skip;
    }
    if sourceCopied {
      var name := FreeName(lower, r.base, taken);
      return Create(name, true);
    }
    var existing := FindNet(d.nets, lower(Name(r.base, 1)));
    if existing.Some? {
      var source := existing.value.source;
      if Lookup(d.nodeTypes, source.node) == Some(r.sourceType) && source.port == r.source.port
        && source.members == r.source.members {
        return Merge(existing.value.id);
      }
    }
    if Lookup(d.nodeTypes, r.source.node) == Some(r.sourceType) {
      var name := FreeName(lower, r.base, taken);
      return Create(name, false);
    }
    return Skip;
  }

  lemma NamesLeastMore(lower: Name -> Id, d: Destination, actions: seq<Action>, taken: set<Id>, a: Action)
    requires NamesLeast(lower, d, actions)
    requires forall x :: x in taken ==> x in NamesOf(d.nets) || CreatedBefore(lower, actions, |actions|, x)
    requires a.Create? ==> a.name.suffix >= 1 && TakenUpTo(lower, a.name.base, a.name.suffix - 1, taken)
    ensures NamesLeast(lower, d, actions + [a])
    ensures forall x :: x in taken ==> x in NamesOf(d.nets) || CreatedBefore(lower, actions + [a], |actions| + 1, x)
    ensures a.Create? ==> CreatedBefore(lower, actions + [a], |actions| + 1, lower(a.name))
  {
    var more := actions + [a];
    forall x, n: nat | n <= |actions| && CreatedBefore(lower, actions, n, x)
      ensures CreatedBefore(lower, more, n, x) && CreatedBefore(lower, more, |more|, x)
    {
      var k :| 0 <= k < n && k < |actions| && actions[k].Create? && lower(actions[k].name) == x;
      assert more[k] == actions[k];
    }
    assert more[|actions|] == a;
    forall i, j | 0 <= i < |more| && more[i].Create? && 1 <= j < more[i].name.suffix
      ensures lower(Name(more[i].name.base, j)) in NamesOf(d.nets)
              || CreatedBefore(lower, more, i, lower(Name(more[i].name.base, j)))
    {
      if i < |actions| {
        assert more[i] == actions[i];
      }
    }
  }

  /** Every record's outcome; no created net can clash with another. */
  method ResolveNetPastes(lower: Name -> Id, d: Destination, copied: set<Id>, records: seq<NetRecord>)
    returns (actions: seq<Action>)
    requires SuffixesApart(lower)
    ensures Answers(lower, d, copied, records, actions)
    ensures NamesFresh(lower, d, actions) && NamesLeast(lower, d, actions)
  {
    actions := [];
    var taken := NamesOf(d.nets);
    hide Calls;
    hide SuffixesApart;
    hide NamesOf;
    for i := 0 to |records|
      invariant |actions| == i && forall k :: 0 <= k < i ==> Calls(lower, d, copied, records[k], actions[k])
      invariant NamesFresh(lower, d, actions) && NamesOf(d.nets) <= taken && NamesLeast(lower, d, actions)
      invariant forall k :: 0 <= k < i && actions[k].Create? ==> lower(actions[k].name) in taken
      invariant forall x :: x in taken ==> x in NamesOf(d.nets) || CreatedBefore(lower, actions, i, x)
    {
      var a := Resolve(lower, d, copied, records[i], taken);
      NamesLeastMore(lower, d, actions, taken, a);
      if a.Create? {
        taken := taken + {lower(a.name)};
      }
      actions := actions + [a];
    }
  }
}
