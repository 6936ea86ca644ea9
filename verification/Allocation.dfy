/**
 * The allocation seam: every command that mints ids reads one cursor of the graph, its own
 * actor's or the solo one, and writes back that cursor alone.
 */
module Allocation {
  import opened Identity
  import opened Ordered
  import opened AllocatedIds

  /** The cursors of a graph; the actor map is absent until an actor first allocates. */
  datatype Ordinals = Ordinals(nextOrdinal: nat, actorCursors: Option<map<string, nat>>)

  function ActorCursorOf(cursors: Option<map<string, nat>>, actor: string): nat {
    if cursors.Some? && actor in cursors.value then cursors.value[actor] else 0
  }

  function CursorOf(d: Ordinals, actor: Option<string>): nat {
    match actor
    case None => d.nextOrdinal
    case Some(a) => ActorCursorOf(d.actorCursors, a)
  }

  function WithCursor(d: Ordinals, actor: Option<string>, ordinal: nat): Ordinals {
    match actor
    case None => d.(nextOrdinal := ordinal)
    case Some(a) =>
      d.(actorCursors := Some((if d.actorCursors.Some? then d.actorCursors.value else map[])[a := ordinal]))
  }

  /** Nothing is minted at the largest safe integer: the advanced cursor must stay safe. */
  function GuardOrdinal(ordinal: nat): Option<nat> {
    if ordinal >= MAX_SAFE_INTEGER then None else Some(ordinal)
  }

  /** The id a command would mint first. */
  function PredictAllocatedId(d: Ordinals, actor: Option<string>, prefix: Prefix): Option<string> {
    match GuardOrdinal(CursorOf(d, actor))
    case None => None
    case Some(o) => Some(FormatAllocatedId(Text(prefix), o, actor))
  }

  /** The ids of a batch of mints from `start` on. */
  function MintedFrom(start: nat, actor: Option<string>, prefixes: seq<Prefix>): seq<string> {
    seq(|prefixes|, i requires 0 <= i < |prefixes| => FormatAllocatedId(Text(prefixes[i]), start + i, actor))
  }

  /** One command's mints and commit, or nothing when the cursor would run out. */
  function Allocate(d: Ordinals, actor: Option<string>, prefixes: seq<Prefix>): Option<(seq<string>, Ordinals)> {
    var start := CursorOf(d, actor);
    if |prefixes| > 0 && start + |prefixes| - 1 >= MAX_SAFE_INTEGER then None
    else Some((MintedFrom(start, actor, prefixes), if prefixes == [] then d
      else WithCursor(d, actor, start + |prefixes|)))
  }

  /** The allocator of one command on one graph. */
  class GraphAllocator {
    const actor: Option<string>
    const start: nat
    var ordinal: nat

    constructor (d: Ordinals, actor: Option<string>)
      ensures this.actor == actor && start == CursorOf(d, actor) && ordinal == start
    {
      this.actor := actor;
      start := CursorOf(d, actor);
      ordinal := CursorOf(d, actor);
    }

    /** One fresh id; nothing stands for the exception that rejects the command. */
    method Mint(prefix: Prefix) returns (id: Option<string>)
      modifies this
      ensures ordinal == old(ordinal) + 1
      ensures id == if old(ordinal) < MAX_SAFE_INTEGER then Some(FormatAllocatedId(Text(prefix), old(ordinal), actor))
              else None
    {
      var guarded := GuardOrdinal(ordinal);
      ordinal := ordinal + 1;
      return if guarded.None? then None else Some(FormatAllocatedId(Text(prefix), guarded.value, actor));
    }

    method Commit(d: Ordinals) returns (d': Ordinals)
      ensures d' == if ordinal == start then d else WithCursor(d, actor, ordinal)
    {
      if ordinal == start {
        return d;
      }
      match actor {
        case None => d' := d.(nextOrdinal := ordinal);
        case Some(a) =>
          if d.actorCursors.None? {
            d' := d.(actorCursors := Some(map[a := ordinal]));
          } else {
            d' := d.(actorCursors := Some(d.actorCursors.value[a := ordinal]));
          }
      }
    }
  }

  /** A command's allocations in full. */
  method RunCommand(d: Ordinals, actor: Option<string>, prefixes: seq<Prefix>)
    returns (result: Option<(seq<string>, Ordinals)>)
    ensures result == Allocate(d, actor, prefixes)
  {
    var alloc := new GraphAllocator(d, actor);
    var ids: seq<string> := [];
    for i := 0 to |prefixes|
      invariant alloc.ordinal == alloc.start + i && (i > 0 ==> alloc.start + i - 1 < MAX_SAFE_INTEGER)
      invariant |ids| == i && forall k ::
                0 <= k < i ==> ids[k] == FormatAllocatedId(Text(prefixes[k]), alloc.start + k, actor)
    {
      var id := alloc.Mint(prefixes[i]);
      if id.None? {
        return None;
      }
      ids := ids + [id.value];
    }
    assert ids == MintedFrom(alloc.start, actor, prefixes);
    var d' := alloc.Commit(d);
    return Some((ids, d'));
  }

  // ---------------------------------------------------------------------
  // Any sequence of commands by any mix of actors

  datatype Command = Command(actor: Option<string>, prefixes: seq<Prefix>)

  datatype History = History(ordinals: Ordinals, minted: seq<string>)

  /** A command by an invalid actor, or one that exhausts its cursor, is rejected as a whole. */
  function Dispatch(h: History, c: Command): History {
    if c.actor.Some? && !IsValidActorId(c.actor.value) then h
    else
      match Allocate(h.ordinals, c.actor, c.prefixes)
      case None => h
      case Some((ids, d)) => History(d, h.minted + ids)
  }

  function DispatchAll(start: Ordinals, commands: seq<Command>): History {
    if commands == [] then History(start, [])
    else Dispatch(DispatchAll(start, commands[..|commands| - 1]), commands[|commands| - 1])
  }

  /** A command mints all it asks for, in turn from its own cursor, and moves that cursor alone; or nothing at all. */
  lemma AllocatesExactly(d: Ordinals, actor: Option<string>, prefixes: seq<Prefix>)
    ensures var start := CursorOf(d, actor);
            if prefixes == [] then Allocate(d, actor, prefixes) == Some(([], d))
            else if start + |prefixes| > MAX_SAFE_INTEGER then Allocate(d, actor, prefixes).None?
            else
              && Allocate(d, actor, prefixes).Some?
              && var (ids, d') := Allocate(d, actor, prefixes).value;
              && |ids| == |prefixes|
              && (forall i :: 0 <= i < |ids| ==> ids[i] == FormatAllocatedId(Text(prefixes[i]), start + i, actor))
              && forall other :: CursorOf(d', other) == if other == actor then start + |prefixes|
                 else CursorOf(d, other)
  {
    hide FormatAllocatedId;
    forall other
      ensures CursorOf(WithCursor(d, actor, CursorOf(d, actor) + |prefixes|), other) ==
              if other == actor then CursorOf(d, actor) + |prefixes| else CursorOf(d, other)
    {
      CursorAfter(d, actor, CursorOf(d, actor) + |prefixes|, other);
    }
    hide WithCursor;
  }

  /** Commands take effect one after the other: one that is accepted adds the ids it minted, any other nothing. */
  lemma DispatchesInTurn(start: Ordinals, commands: seq<Command>, c: Command)
    ensures DispatchAll(start, []) == History(start, [])
    ensures var h := DispatchAll(start, commands);
            var made := Allocate(h.ordinals, c.actor, c.prefixes);
            DispatchAll(start, commands + [c]) ==
            if (c.actor.Some? && !IsValidActorId(c.actor.value)) || made.None? then h
            else History(made.value.1, h.minted + made.value.0)
  {
    assert (commands + [c])[..|commands|] == commands;
    hide Allocate;
  }

  /** The cursor gate on one id: a canonical id lies below its own cursor. */
  predicate BelowCursor(d: Ordinals, id: string) {
    var p := ParseAllocatedId(id);
    p.None? || p.value.ordinal < CursorOf(d, p.value.actor)
  }

  ghost predicate AllBelow(d: Ordinals, ids: set<string>) {
    forall id :: id in ids ==> BelowCursor(d, id)
  }

  lemma CursorAfter(d: Ordinals, actor: Option<string>, ordinal: nat, other: Option<string>)
    ensures CursorOf(WithCursor(d, actor, ordinal), other) == if other == actor then ordinal else CursorOf(d, other)
  {
  }

  /** An id minted from a cursor reads back as that scope's, at or above the cursor. */
  lemma MintedReads(start: nat, actor: Option<string>, prefixes: seq<Prefix>, i: nat)
    requires i < |prefixes| && start + i <= MAX_SAFE_INTEGER && (actor.Some? ==> IsValidActorId(actor.value))
    ensures ParseAllocatedId(MintedFrom(start, actor, prefixes)[i]) ==
            Some(ParsedId(Text(prefixes[i]), start + i, actor))
  {
    ParseOfFormat(Text(prefixes[i]), start + i, actor);
  }

  /** What a run keeps: every id seen is below its cursor, and no id was minted twice or existed before. */
  ghost predicate Sound(existing: set<string>, h: History) {
    && AllBelow(h.ordinals, existing) && (forall id :: id in h.minted ==> BelowCursor(h.ordinals, id))
    && Distinct(h.minted) && forall id :: id in h.minted ==> id !in existing
  }

  lemma BatchFresh(d: Ordinals, actor: Option<string>, prefixes: seq<Prefix>, id: string)
    requires prefixes != [] && CursorOf(d, actor) + |prefixes| - 1 < MAX_SAFE_INTEGER
    requires actor.Some? ==> IsValidActorId(actor.value)
    ensures var start := CursorOf(d, actor); var ids := MintedFrom(start, actor, prefixes);
            var d' := WithCursor(d, actor, start + |prefixes|);
            && (BelowCursor(d, id) ==> id !in ids && BelowCursor(d', id))
            && (id in ids ==> BelowCursor(d', id))
  {
    var start := CursorOf(d, actor);
    var ids := MintedFrom(start, actor, prefixes);
    if id in ids {
      var i :| 0 <= i < |ids| && ids[i] == id;
      MintedReads(start, actor, prefixes, i);
    }
    var p := ParseAllocatedId(id);
    if p.Some? {
      CursorAfter(d, actor, start + |prefixes|, p.value.actor);
    }
    hide ParseAllocatedId;
    hide MintedFrom;
  }

  lemma BatchDistinct(start: nat, actor: Option<string>, prefixes: seq<Prefix>)
    requires |prefixes| > 0 ==> start + |prefixes| - 1 < MAX_SAFE_INTEGER
    requires actor.Some? ==> IsValidActorId(actor.value)
    ensures Distinct(MintedFrom(start, actor, prefixes))
  {
    var ids := MintedFrom(start, actor, prefixes);
    forall i, j | 0 <= i < j < |ids|
      ensures ids[i] != ids[j]
    {
      MintedReads(start, actor, prefixes, i);
      MintedReads(start, actor, prefixes, j);
    }
  }

  lemma ConcatDistinct(a: seq<string>, b: seq<string>)
    requires Distinct(a) && Distinct(b) && forall x :: x in a ==> x !in b
    ensures Distinct(a + b) && forall x :: x in a + b <==> x in a || x in b
  {
    forall i, j | 0 <= i < j < |a + b|
      ensures (a + b)[i] != (a + b)[j]
    {
      if i < |a| <= j {
        assert a[i] in a && b[j - |a|] in b;
      }
    }
  }

  lemma CommitSound(existing: set<string>, d: Ordinals, d': Ordinals, minted: seq<string>, ids: seq<string>)
    requires Sound(existing, History(d, minted)) && Distinct(ids)
    requires forall id :: BelowCursor(d, id) ==> id !in ids && BelowCursor(d', id)
    requires forall id :: id in ids ==> BelowCursor(d', id)
    ensures Sound(existing, History(d', minted + ids))
  {
    hide BelowCursor;
    ConcatDistinct(minted, ids);
    hide Distinct;
  }

  lemma DispatchSound(existing: set<string>, h: History, c: Command)
    requires Sound(existing, h)
    ensures Sound(existing, Dispatch(h, c))
  {
    var d, start := h.ordinals, CursorOf(h.ordinals, c.actor);
    if (c.actor.Some? ==> IsValidActorId(c.actor.value)) && c.prefixes != []
      && start + |c.prefixes| - 1 < MAX_SAFE_INTEGER {
      var ids, d' := MintedFrom(start, c.actor, c.prefixes), WithCursor(d, c.actor, start + |c.prefixes|);
      BatchDistinct(start, c.actor, c.prefixes);
      assert Dispatch(h, c) == History(d', h.minted + ids);
      hide Sound;
      forall id
        ensures BelowCursor(d, id) ==> id !in ids && BelowCursor(d', id)
        ensures id in ids ==> BelowCursor(d', id)
      {
        BatchFresh(d, c.actor, c.prefixes, id);
      }
      CommitSound(existing, d, d', h.minted, ids);
    } else {
      assert Dispatch(h, c).minted == h.minted && Dispatch(h, c).ordinals == d;
      hide Sound;
    }
  }

  /**
   * Over any commands by any mix of solo and actor scopes, on a graph whose ids pass the cursor
   * gate: all minted ids are distinct, none existed before, and the gate still passes.
   */
  lemma {:induction false} MintedIdsNeverCollide(start: Ordinals, existing: set<string>, commands: seq<Command>)
    requires AllBelow(start, existing)
    ensures Sound(existing, DispatchAll(start, commands))
  {
    if commands != [] {
      MintedIdsNeverCollide(start, existing, commands[..|commands| - 1]);
      DispatchSound(existing, DispatchAll(start, commands[..|commands| - 1]), commands[|commands| - 1]);
    }
  }

  /** The prediction refuses exactly when a mint would, and is otherwise the first id the command mints. */
  lemma PredictionIsMinted(d: Ordinals, actor: Option<string>, prefix: Prefix, more: seq<Prefix>)
    ensures PredictAllocatedId(d, actor, prefix).None? <==> Allocate(d, actor, [prefix]).None?
    ensures Allocate(d, actor, [prefix] + more).Some? ==>
              PredictAllocatedId(d, actor, prefix) == Some(Allocate(d, actor, [prefix] + more).value.0[0])
  {
    assert ([prefix] + more)[0] == prefix;
  }

  /** However many commands other scopes get in first, a prediction stays what it was. */
  lemma {:induction false} PredictionOutlivesOthers(start: Ordinals, commands: seq<Command>, actor: Option<string>,
                                                    prefix: Prefix)
    requires forall i :: 0 <= i < |commands| ==> commands[i].actor != actor
    ensures CursorOf(DispatchAll(start, commands).ordinals, actor) == CursorOf(start, actor)
    ensures PredictAllocatedId(DispatchAll(start, commands).ordinals, actor, prefix) ==
            PredictAllocatedId(start, actor, prefix)
  {
    if commands != [] {
      var front, c := commands[..|commands| - 1], commands[|commands| - 1];
      PredictionOutlivesOthers(start, front, actor, prefix);
      var h := DispatchAll(start, front);
      CursorAfter(h.ordinals, c.actor, CursorOf(h.ordinals, c.actor) + |c.prefixes|, actor);
      hide WithCursor;
      hide CursorOf;
      hide MintedFrom;
    }
  }
}
