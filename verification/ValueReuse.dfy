/** How long a kept rendition is served: while its request stands, it is recent and its alias is not displaced. */
module ValueReuse {
  import opened Identity
  import opened Ordered
  import opened JsMaps
  import opened Values

  // ---------------------------------------------------------------------
  // Aliases

  ghost predicate AliasesFit(aliases: JsMap<RequestKey, EntryKey>) {
    Good(aliases) && |aliases.keys| <= RENDITION_CACHE_MAX * 4
  }

  /** How many new aliases may still come before the one at place `i` is displaced. */
  function Room(aliases: JsMap<RequestKey, EntryKey>, i: nat): int {
    i + RENDITION_CACHE_MAX * 4 - |aliases.keys|
  }

  ghost predicate Stands(aliases: JsMap<RequestKey, EntryKey>, q: RequestKey, entry: EntryKey, i: nat) {
    AliasesFit(aliases) && i < |aliases.keys| && aliases.keys[i] == q && aliases.at[q] == entry
  }

  ghost predicate Standing(aliases: JsMap<RequestKey, EntryKey>, q: RequestKey, entry: EntryKey, room: int) {
    exists i: nat :: Stands(aliases, q, entry, i) && Room(aliases, i) == room
  }

  /** The oldest alias goes, and every other moves up. */
  lemma Displaces(aliases: JsMap<RequestKey, EntryKey>, q: RequestKey, entry: EntryKey, i: nat, r: RequestKey,
                  e: EntryKey)
    requires Stands(aliases, q, entry, i) && r !in aliases.at && |aliases.keys| == RENDITION_CACHE_MAX * 4
    ensures var after := FitAliases(Put(aliases, r, e));
            && AliasesFit(after) && |after.keys| == |aliases.keys|
            && (i > 0 ==> Stands(after, q, entry, i - 1)) && (i == 0 ==> q !in after.at)
  {
    var put := Put(aliases, r, e);
    PutGood(aliases, r, e);
    assert put.keys == aliases.keys + [r];
    DeleteGood(put, put.keys[0]);
    WithoutFirst(put.keys);
    var after := FitAliases(put);
    assert after.keys == put.keys[1..] && after.at == put.at - {aliases.keys[0]};
    if i > 0 {
      assert after.keys[i - 1] == q && aliases.keys[0] != aliases.keys[i];
    }
    hide Without;
  }

  lemma Appends(aliases: JsMap<RequestKey, EntryKey>, q: RequestKey, entry: EntryKey, i: nat, r: RequestKey,
                e: EntryKey)
    requires Stands(aliases, q, entry, i) && r != q && (r in aliases.at || |aliases.keys| < RENDITION_CACHE_MAX * 4)
    ensures var after := FitAliases(Put(aliases, r, e));
            Stands(after, q, entry, i) && |after.keys| == |aliases.keys| + if r in aliases.at then 0 else 1
  {
    PutGood(aliases, r, e);
    assert Put(aliases, r, e).keys[i] == q;
  }

  /** Another request's alias: a known one changes no place, a new one takes one place of room. */
  lemma AliasStep(aliases: JsMap<RequestKey, EntryKey>, q: RequestKey, entry: EntryKey, room: int, r: RequestKey,
                  e: EntryKey)
    requires Standing(aliases, q, entry, room) && r != q
    ensures var after := FitAliases(Put(aliases, r, e));
            && AliasesFit(after)
            && (r in aliases.at ==> Standing(after, q, entry, room))
            && (r !in aliases.at && room > 0 ==> Standing(after, q, entry, room - 1))
            && (r !in aliases.at && room == 0 ==> q !in after.at)
    ensures room >= 0
  {
    var i: nat :| Stands(aliases, q, entry, i) && Room(aliases, i) == room;
    if r !in aliases.at && |aliases.keys| == RENDITION_CACHE_MAX * 4 {
      Displaces(aliases, q, entry, i, r, e);
    } else {
      Appends(aliases, q, entry, i, r, e);
    }
    hide Put;
    hide FitAliases;
    hide Good;
  }

  lemma GoneStays(aliases: JsMap<RequestKey, EntryKey>, q: RequestKey, last: EntryKey)
    requires AliasesFit(aliases) && q !in aliases.at && last.request != q
    ensures AliasesFit(FitAliases(Put(aliases, last.request, last)))
            && q !in FitAliases(Put(aliases, last.request, last)).at
  {
    var put := Put(aliases, last.request, last);
    PutGood(aliases, last.request, last);
    if |put.keys| > RENDITION_CACHE_MAX * 4 {
      DeleteGood(put, put.keys[0]);
    }
  }

  // ---------------------------------------------------------------------
  // Recency

  lemma {:induction false} WithoutConcat(a: seq<EntryKey>, b: seq<EntryKey>, x: EntryKey)
    ensures Without(a + b, x) == Without(a, x) + Without(b, x)
  {
    if a == [] {
      assert a + b == b;
    } else {
      assert (a + b)[1..] == a[1..] + b;
      WithoutConcat(a[1..], b, x);
    }
  }

  /** The cache ends in the entry and, behind it, exactly what was used since, in the order of use. */
  ghost predicate EndsIn(cache: JsMap<EntryKey, Rendition>, entry: EntryKey, rendition: Rendition,
                         since: JsMap<EntryKey, Rendition>, front: seq<EntryKey>)
  {
    && Good(cache) && Good(since) && cache.keys == front + [entry] + since.keys
    && entry in cache.at && cache.at[entry] == rendition
    && forall k :: k in since.keys ==> k in cache.at && cache.at[k] == since.at[k]
  }

  ghost predicate Recent(cache: JsMap<EntryKey, Rendition>, entry: EntryKey, rendition: Rendition,
                         since: JsMap<EntryKey, Rendition>)
  {
    exists front :: EndsIn(cache, entry, rendition, since, front)
  }

  /** The entry and what was used since fit the cache. */
  ghost predicate Fits(rendition: Rendition, since: JsMap<EntryKey, Rendition>) {
    1 + |since.keys| <= RENDITION_CACHE_MAX && rendition.size + Bytes(since) <= RENDITION_CACHE_BYTES
  }

  lemma TouchedKeys(keys: seq<EntryKey>, front: seq<EntryKey>, entry: EntryKey, since: seq<EntryKey>, k: EntryKey)
    requires keys == front + [entry] + since && k != entry
    ensures Without(keys, k) + [k] == Without(front, k) + [entry] + (Without(since, k) + [k])
  {
    WithoutConcat(front + [entry], since, k);
    WithoutConcat(front, [entry], k);
    assert Without([entry], k) == [entry];
    hide Without;
  }

  lemma TouchOther(cache: JsMap<EntryKey, Rendition>, entry: EntryKey, rendition: Rendition,
                   since: JsMap<EntryKey, Rendition>, k: EntryKey, v: Rendition)
    requires Recent(cache, entry, rendition, since) && k != entry
    ensures Recent(Touch(cache, k, v), entry, rendition, Touch(since, k, v))
  {
    hide Touch;
    hide Without;
    hide Distinct;
    var front :| EndsIn(cache, entry, rendition, since, front);
    TouchGood(cache, k, v);
    TouchGood(since, k, v);
    TouchedKeys(cache.keys, front, entry, since.keys, k);
    var touched, more := Touch(cache, k, v), Touch(since, k, v);
    assert EndsIn(touched, entry, rendition, more, Without(front, k)) by {
      forall x | x in more.keys
        ensures x in touched.at && touched.at[x] == more.at[x]
      {
        assert x == k || x in since.keys;
      }
    }
  }

  lemma TouchItself(cache: JsMap<EntryKey, Rendition>, entry: EntryKey, rendition: Rendition,
                    since: JsMap<EntryKey, Rendition>)
    requires Recent(cache, entry, rendition, since)
    ensures Recent(Touch(cache, entry, rendition), entry, rendition, Empty())
  {
    TouchGood(cache, entry, rendition);
    var touched := Touch(cache, entry, rendition);
    hide Touch;
    assert touched.keys == Without(cache.keys, entry) + [entry] + [];
    assert EndsIn(touched, entry, rendition, Empty(), Without(cache.keys, entry));
  }

  lemma TailBytes(cache: JsMap<EntryKey, Rendition>, entry: EntryKey, rendition: Rendition,
                  since: JsMap<EntryKey, Rendition>)
    requires entry in cache.at && cache.at[entry] == rendition && Good(since)
    requires forall k :: k in since.keys ==> k in cache.at && cache.at[k] == since.at[k]
    ensures SumBy([entry] + since.keys, SizeOf(cache)) == rendition.size + Bytes(since)
  {
    assert ([entry] + since.keys)[1..] == since.keys;
    SumSame(since.keys, SizeOf(cache), SizeOf(since));
  }

  lemma AllFits(cache: JsMap<EntryKey, Rendition>, entry: EntryKey, rendition: Rendition,
                since: JsMap<EntryKey, Rendition>, front: seq<EntryKey>)
    requires EndsIn(cache, entry, rendition, since, front) && Fits(rendition, since)
    ensures front == [] ==> !TooMuch(cache)
    ensures cache.keys != []
  {
    TailBytes(cache, entry, rendition, since);
    hide SumBy;
    hide SizeOf;
    hide Good;
    if front == [] {
      assert cache.keys == [entry] + since.keys;
    }
  }

  lemma DropFirst(cache: JsMap<EntryKey, Rendition>, entry: EntryKey, rendition: Rendition,
                  since: JsMap<EntryKey, Rendition>, front: seq<EntryKey>)
    requires EndsIn(cache, entry, rendition, since, front) && front != []
    ensures EndsIn(Delete(cache, cache.keys[0]), entry, rendition, since, front[1..])
  {
    FitStep(cache);
    FirstApart(cache, entry, since, front);
    hide Fit;
    hide Delete;
    hide TooMuch;
    hide Distinct;
    assert cache.keys[1..] == front[1..] + [entry] + since.keys;
  }

  /** Evicting to fit never reaches a tail that fits. */
  lemma {:induction false} FitSpares(cache: JsMap<EntryKey, Rendition>, entry: EntryKey, rendition: Rendition,
                                     since: JsMap<EntryKey, Rendition>, front: seq<EntryKey>)
    requires EndsIn(cache, entry, rendition, since, front) && Fits(rendition, since)
    ensures Recent(Fit(cache), entry, rendition, since)
    decreases |front|
  {
    hide EndsIn;
    hide Fit;
    hide TooMuch;
    hide Fits;
    hide Delete;
    EndsGood(cache, entry, rendition, since, front);
    AllFits(cache, entry, rendition, since, front);
    FitStep(cache);
    if TooMuch(cache) {
      DropFirst(cache, entry, rendition, since, front);
      FitSpares(Delete(cache, cache.keys[0]), entry, rendition, since, front[1..]);
    }
  }

  lemma EndsGood(cache: JsMap<EntryKey, Rendition>, entry: EntryKey, rendition: Rendition,
                 since: JsMap<EntryKey, Rendition>, front: seq<EntryKey>)
    requires EndsIn(cache, entry, rendition, since, front)
    ensures Good(cache)
  {
  }

  lemma FirstApart(cache: JsMap<EntryKey, Rendition>, entry: EntryKey, since: JsMap<EntryKey, Rendition>,
                   front: seq<EntryKey>)
    requires Distinct(cache.keys) && cache.keys == front + [entry] + since.keys && front != []
    ensures cache.keys[0] != entry && cache.keys[0] !in since.keys
  {
    assert cache.keys[|front|] == entry;
    forall j | 0 <= j < |since.keys|
      ensures since.keys[j] != cache.keys[0]
    {
      assert cache.keys[|front| + 1 + j] == since.keys[j];
    }
  }

  // ---------------------------------------------------------------------
  // Any later time

  ghost function RunFrom(w: World, steps: seq<Step>): World {
    if steps == [] then w else Next(RunFrom(w, steps[..|steps| - 1]), steps[|steps| - 1])
  }

  /** The entry a step stores, if it keeps what a read returned. */
  ghost function StoredBy(w: World, s: Step): Option<EntryKey> {
    if s.EndRead? && s.response.Some? && s.fetch in w.fetches && Keeps(w.client, s.fetch, s.response.value)
    then Some(EntryKey(s.fetch.request, IdentityOf(s.fetch, s.response.value).value))
    else None
  }

  /** What a step uses, added to what was used since `entry` was. */
  ghost function UsedBy(w: World, s: Step, entry: EntryKey,
                        since: JsMap<EntryKey, Rendition>): JsMap<EntryKey, Rendition>
  {
    if StoredBy(w, s).Some? then Touch(since, StoredBy(w, s).value, s.response.value.rendition)
    else if s.StartRead? && Hit(w.client, s.read).Some? then
      var used := w.client.aliases.at[RequestFor(w.client, s.read)];
      if used == entry then Empty() else Touch(since, used, Hit(w.client, s.read).value)
    else since
  }

  /** The entries used since `entry` was, each once, in the order of their last use. */
  ghost function UsedSince(w: World, steps: seq<Step>, entry: EntryKey): JsMap<EntryKey, Rendition> {
    if steps == [] then Empty()
    else
      var front := steps[..|steps| - 1];
      UsedBy(RunFrom(w, front), steps[|steps| - 1], entry, UsedSince(w, front, entry))
  }

  /** How many aliases came that were not there. */
  ghost function NewSince(w: World, steps: seq<Step>): nat {
    if steps == [] then 0
    else
      var front := steps[..|steps| - 1];
      var stored := StoredBy(RunFrom(w, front), steps[|steps| - 1]);
      NewSince(w, front) + if stored.Some? && stored.value.request !in RunFrom(w, front).client.aliases.at then 1 else 0
  }

  /** At no time more was used since the entry than fits beside it, and its request was not read and kept again. */
  ghost predicate Spared(w: World, steps: seq<Step>, entry: EntryKey, rendition: Rendition) {
    steps == []
    || (var front := steps[..|steps| - 1];
        && Spared(w, front, entry, rendition)
        && Fits(rendition, UsedSince(w, steps, entry))
        && (var stored := StoredBy(RunFrom(w, front), steps[|steps| - 1]);
            stored.Some? ==> stored.value.request != entry.request))
  }

  /** The entry is where the use order has it; while its epoch stands its alias has the room left, or is gone. */
  ghost predicate Cached(c: Client, entry: EntryKey, rendition: Rendition, since: JsMap<EntryKey, Rendition>, room: int)
  {
    && Recent(c.cache, entry, rendition, since)
    && c.epoch >= entry.request.epoch
    && (c.epoch == entry.request.epoch
        ==> AliasesFit(c.aliases)
            && if room >= 0 then Standing(c.aliases, entry.request, entry, room) else entry.request !in c.aliases.at)
  }

  lemma PeekKeepsCached(c: Client, p: Peek, a: Announced, entry: EntryKey, rendition: Rendition,
                        since: JsMap<EntryKey, Rendition>, room: int)
    requires Cached(c, entry, rendition, since, room)
    ensures Cached(FinishPeek(c, p, a), entry, rendition, since, room)
  {
    hide Recent;
    hide Standing;
    hide AliasesFit;
  }

  lemma HitKeepsCached(w: World, r: Read, entry: EntryKey, rendition: Rendition, since: JsMap<EntryKey, Rendition>,
                       room: int)
    requires Cached(w.client, entry, rendition, since, room)
    ensures Cached(Next(w, StartRead(r)).client, entry, rendition, UsedBy(w, StartRead(r), entry, since), room)
  {
    var c := w.client;
    if Hit(c, r).Some? {
      var used := c.aliases.at[RequestFor(c, r)];
      if used == entry {
        SameRendition(c.cache, entry, rendition, since);
        TouchItself(c.cache, entry, rendition, since);
      } else {
        TouchOther(c.cache, entry, rendition, since, used, Hit(c, r).value);
      }
    }
    hide Recent;
    hide Standing;
    hide AliasesFit;
    hide Touch;
    hide RequestFor;
  }

  lemma SameRendition(cache: JsMap<EntryKey, Rendition>, entry: EntryKey, rendition: Rendition,
                      since: JsMap<EntryKey, Rendition>)
    requires Recent(cache, entry, rendition, since)
    ensures entry in cache.at && cache.at[entry] == rendition
  {
  }

  lemma StoreKeepsCached(c: Client, f: Fetch, res: Response, entry: EntryKey, rendition: Rendition,
                         since: JsMap<EntryKey, Rendition>, room: int)
    requires Cached(c, entry, rendition, since, room) && Keeps(c, f, res) && f.request != entry.request
    requires var stored := EntryKey(f.request, IdentityOf(f, res).value);
             Fits(rendition, Touch(since, stored, res.rendition))
    ensures var stored := EntryKey(f.request, IdentityOf(f, res).value);
            Cached(FinishRead(c, f, res), entry, rendition, Touch(since, stored, res.rendition),
                   if f.request in c.aliases.at then room else room - 1)
  {
    hide Touch;
    hide Fit;
    hide Put;
    hide FitAliases;
    hide Fits;
    hide Room;
    hide AnnouncedFor;
    var stored := EntryKey(f.request, IdentityOf(f, res).value);
    TouchOther(c.cache, entry, rendition, since, stored, res.rendition);
    var touched, more := Touch(c.cache, stored, res.rendition), Touch(since, stored, res.rendition);
    FitRecent(touched, entry, rendition, more);
    hide Recent;
    if c.epoch == entry.request.epoch {
      if room >= 0 {
        AliasStep(c.aliases, entry.request, entry, room, f.request, stored);
      } else {
        GoneStays(c.aliases, entry.request, stored);
      }
    }
    hide Standing;
    hide AliasesFit;
  }

  lemma FitRecent(cache: JsMap<EntryKey, Rendition>, entry: EntryKey, rendition: Rendition,
                  since: JsMap<EntryKey, Rendition>)
    requires Recent(cache, entry, rendition, since) && Fits(rendition, since)
    ensures Recent(Fit(cache), entry, rendition, since)
  {
    var front :| EndsIn(cache, entry, rendition, since, front);
    FitSpares(cache, entry, rendition, since, front);
    hide *;
  }

  lemma AliasesStayFit(aliases: JsMap<RequestKey, EntryKey>, r: RequestKey, e: EntryKey)
    requires AliasesFit(aliases)
    ensures AliasesFit(FitAliases(Put(aliases, r, e)))
  {
    var put := Put(aliases, r, e);
    PutGood(aliases, r, e);
    if |put.keys| > RENDITION_CACHE_MAX * 4 {
      DeleteGood(put, put.keys[0]);
    }
  }

  lemma StepKeepsCached(w: World, s: Step, entry: EntryKey, rendition: Rendition, since: JsMap<EntryKey, Rendition>,
                        room: int)
    requires Cached(w.client, entry, rendition, since, room) && Fits(rendition, UsedBy(w, s, entry, since))
    requires StoredBy(w, s).Some? ==> StoredBy(w, s).value.request != entry.request
    ensures var stored := StoredBy(w, s);
            Cached(Next(w, s).client, entry, rendition, UsedBy(w, s, entry, since),
                   if stored.Some? && stored.value.request !in w.client.aliases.at then room - 1 else room)
  {
    hide Cached;
    hide Fits;
    hide FinishPeek;
    hide FinishRead;
    hide Touch;
    hide RequestFor;
    match s
    case StartPeek(query) => CachedAlike(w.client, Next(w, s).client, entry, rendition, since, room);
    case EndPeek(p, a) =>
      if a.Some? && p in w.peeks { PeekKeepsCached(w.client, p, a.value, entry, rendition, since, room); }
    case StartRead(r) => HitKeepsCached(w, r, entry, rendition, since, room);
    case EndRead(f, res) =>
      if StoredBy(w, s).Some? {
        StoreKeepsCached(w.client, f, res.value, entry, rendition, since, room);
      } else {
        NotKept(w, f, res);
      }
  }

  lemma NotKept(w: World, f: Fetch, res: Option<Response>)
    requires StoredBy(w, EndRead(f, res)).None?
    ensures Next(w, EndRead(f, res)).client == w.client
  {
  }

  lemma CachedAlike(c: Client, c': Client, entry: EntryKey, rendition: Rendition, since: JsMap<EntryKey, Rendition>,
                    room: int)
    requires Cached(c, entry, rendition, since, room) && c' == c.(sequence := c'.sequence)
    ensures Cached(c', entry, rendition, since, room)
  {
  }

  /** What one more step must leave. */
  lemma SparedLast(w: World, steps: seq<Step>, entry: EntryKey, rendition: Rendition)
    requires steps != [] && Spared(w, steps, entry, rendition)
    ensures var front, last := steps[..|steps| - 1], steps[|steps| - 1];
            && Spared(w, front, entry, rendition)
            && Fits(rendition, UsedBy(RunFrom(w, front), last, entry, UsedSince(w, front, entry)))
            && (StoredBy(RunFrom(w, front), last).Some?
                ==> StoredBy(RunFrom(w, front), last).value.request != entry.request)
  {
    hide Fits;
    hide UsedBy;
    hide StoredBy;
    hide RunFrom;
    UsedLast(w, steps, entry);
  }

  lemma UsedLast(w: World, steps: seq<Step>, entry: EntryKey)
    requires steps != []
    ensures var front, last := steps[..|steps| - 1], steps[|steps| - 1];
            && RunFrom(w, steps) == Next(RunFrom(w, front), last)
            && UsedSince(w, steps, entry) == UsedBy(RunFrom(w, front), last, entry, UsedSince(w, front, entry))
  {
    hide Next;
    hide UsedBy;
  }

  lemma NewLast(w: World, steps: seq<Step>)
    requires steps != []
    ensures var front, last := steps[..|steps| - 1], steps[|steps| - 1];
            var stored := StoredBy(RunFrom(w, front), last);
            NewSince(w, steps) == NewSince(w, front)
              + if stored.Some? && stored.value.request !in RunFrom(w, front).client.aliases.at then 1 else 0
  {
    hide StoredBy;
    hide RunFrom;
  }

  lemma {:induction false} StaysCached(w: World, steps: seq<Step>, entry: EntryKey, rendition: Rendition, room: int)
    requires Cached(w.client, entry, rendition, Empty(), room) && Spared(w, steps, entry, rendition)
    ensures Cached(RunFrom(w, steps).client, entry, rendition, UsedSince(w, steps, entry), room - NewSince(w, steps))
  {
    hide *;
    if steps == [] {
      Unstarted(w, entry);
    } else {
      var front, last := steps[..|steps| - 1], steps[|steps| - 1];
      SparedLast(w, steps, entry, rendition);
      StaysCached(w, front, entry, rendition, room);
      StepKeepsCached(RunFrom(w, front), last, entry, rendition, UsedSince(w, front, entry), room - NewSince(w, front));
      UsedLast(w, steps, entry);
      NewLast(w, steps);
    }
  }

  lemma Unstarted(w: World, entry: EntryKey)
    ensures RunFrom(w, []) == w && UsedSince(w, [], entry) == Empty() && NewSince(w, []) == 0
  {
  }

  /** The room of an alias once it is set: a known one keeps its place, a new one comes last. */
  ghost predicate RoomOnceSet(aliases: JsMap<RequestKey, EntryKey>, request: RequestKey, room: int) {
    if request in aliases.at
    then exists i: nat :: i < |aliases.keys| && aliases.keys[i] == request && Room(aliases, i) == room
    else room == RENDITION_CACHE_MAX * 4 - 1
  }

  lemma AliasSet(aliases: JsMap<RequestKey, EntryKey>, request: RequestKey, entry: EntryKey, room: int)
    requires AliasesFit(aliases) && RoomOnceSet(aliases, request, room)
    ensures room >= 0 && Standing(FitAliases(Put(aliases, request, entry)), request, entry, room)
  {
    hide Without;
    hide Distinct;
    var put := Put(aliases, request, entry);
    PutGood(aliases, request, entry);
    AliasesStayFit(aliases, request, entry);
    var after := FitAliases(put);
    if request in aliases.at {
      var i: nat :| i < |aliases.keys| && aliases.keys[i] == request && Room(aliases, i) == room;
      assert Stands(after, request, entry, i) && Room(after, i) == room;
    } else {
      assert put.keys == aliases.keys + [request];
      if |put.keys| > RENDITION_CACHE_MAX * 4 {
        DeleteGood(put, put.keys[0]);
        WithoutFirst(put.keys);
        assert after.keys == put.keys[1..] && put.keys[0] == aliases.keys[0];
      }
      var i: nat := |after.keys| - 1;
      assert Stands(after, request, entry, i) && Room(after, i) == room;
    }
  }

  /** A read that was just kept is cached, the most recently used. */
  lemma KeptIsCached(c: Client, f: Fetch, res: Response, room: int)
    requires CachesGood(c) && Keeps(c, f, res) && RoomOnceSet(c.aliases, f.request, room)
    ensures room >= 0
    ensures Cached(FinishRead(c, f, res), EntryKey(f.request, IdentityOf(f, res).value), res.rendition, Empty(), room)
  {
    hide Recent;
    hide Fit;
    hide Touch;
    hide Put;
    hide FitAliases;
    hide Room;
    hide AnnouncedFor;
    hide AnnouncedGood;
    hide CacheGood;
    hide RoomOnceSet;
    var entry := EntryKey(f.request, IdentityOf(f, res).value);
    AliasSet(c.aliases, f.request, entry, room);
    TouchedLast(c.cache, entry, res.rendition);
    FitRecent(Touch(c.cache, entry, res.rendition), entry, res.rendition, Empty());
  }

  lemma TouchedLast(cache: JsMap<EntryKey, Rendition>, entry: EntryKey, rendition: Rendition)
    requires CacheGood(cache) && rendition.size <= RENDITION_CACHE_BYTES
    ensures Recent(Touch(cache, entry, rendition), entry, rendition, Empty()) && Fits(rendition, Empty())
  {
    TouchGood(cache, entry, rendition);
    var touched := Touch(cache, entry, rendition);
    hide Touch;
    assert touched.keys == Without(cache.keys, entry) + [entry] + [];
    assert EndsIn(touched, entry, rendition, Empty(), Without(cache.keys, entry));
  }

  lemma ServedWhileCached(c: Client, r: Read, entry: EntryKey, rendition: Rendition, since: JsMap<EntryKey, Rendition>,
                          room: int)
    requires Cached(c, entry, rendition, since, room) && RequestFor(c, r) == entry.request
    ensures Hit(c, r) == if room >= 0 then Some(rendition) else None
  {
    hide Recent;
    SameRendition(c.cache, entry, rendition, since);
    assert RequestFor(c, r).epoch == c.epoch;
    if room >= 0 {
      var i: nat :| Stands(c.aliases, entry.request, entry, i) && Room(c.aliases, i) == room;
    }
  }

  lemma EndReadKeeps(w: World, f: Fetch, res: Response)
    requires f in w.fetches
    ensures Next(w, EndRead(f, Some(res))).client == FinishRead(w.client, f, res)
  {
  }

  /**
   * At any later time at which the request of a kept read stands, that is, the same address, announced
   * identity, renderer version and epoch, and as long as what was used since the entry's last use never
   * exceeded what fits beside it and its request was not kept again: the read is served exactly when no
   * more new aliases came than its own had room, for neither a hit nor keeping a read again moves an alias.
   */
  lemma KeptReadServedExactly(w: World, f: Fetch, res: Response, entry: EntryKey, room: int, steps: seq<Step>, r: Read)
    requires CachesGood(w.client) && Keeps(w.client, f, res) && f in w.fetches
    requires entry == EntryKey(f.request, IdentityOf(f, res).value) && RoomOnceSet(w.client.aliases, f.request, room)
    requires var kept := Next(w, EndRead(f, Some(res)));
             Spared(kept, steps, entry, res.rendition) && RequestFor(RunFrom(kept, steps).client, r) == entry.request
    ensures var kept := Next(w, EndRead(f, Some(res)));
            Hit(RunFrom(kept, steps).client, r) == if NewSince(kept, steps) <= room then Some(res.rendition) else None
  {
    hide *;
    var kept := Next(w, EndRead(f, Some(res)));
    KeptIsCached(w.client, f, res, room);
    EndReadKeeps(w, f, res);
    StaysCached(kept, steps, entry, res.rendition, room);
    ServedWhileCached(RunFrom(kept, steps).client, r, entry, res.rendition, UsedSince(kept, steps, entry),
                      room - NewSince(kept, steps));
  }
}
