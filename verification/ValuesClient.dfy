/** The value client's methods, one for each stretch between awaits, updating its caches in place. */
module ValuesClients {
  import opened Identity
  import opened Ordered
  import opened JsMaps
  import opened Values

  class DinksterValuesClient {
    var renditionCache: JsMap<EntryKey, Rendition>
    var urlCacheKey: JsMap<RequestKey, EntryKey>
    var peekIdentity: JsMap<Id, Announcement>
    var peekSequence: nat
    var peekEpoch: nat

    function Contents(): Client
      reads this
    {
      Client(peekSequence, peekEpoch, peekIdentity, renditionCache, urlCacheKey)
    }

    ghost predicate Valid()
      reads this
    {
      CachesGood(Contents())
    }

    constructor ()
      ensures Contents() == Run([]).client && Valid()
    {
      renditionCache, urlCacheKey, peekIdentity := Empty(), Empty(), Empty();
      peekSequence, peekEpoch := 0, 0;
      new;
      RunInv([]);
    }

    /** A peek up to its fetch. */
    method PeekStart(query: Id) returns (p: Peek)
      requires Valid()
      modifies this
      ensures (Contents(), p) == BeginPeek(old(Contents()), query)
      ensures Valid()
    {
      hide Bytes;
      peekSequence := peekSequence + 1;
      p := Peek(query, peekSequence, peekEpoch);
    }

    /** A peek after a successful answer. */
    method PeekAnswered(p: Peek, a: Announced)
      requires Valid()
      modifies this
      ensures Contents() == FinishPeek(old(Contents()), p, a)
      ensures Valid()
    {
      FinishPeekGood(Contents(), p, a);
      hide CachesGood;
      hide Touch;
      hide Delete;
      var announced := Get(peekIdentity, p.query);
      if p.sequence < (if announced.Some? then announced.value.sequence else 0) {
        return;
      }
      if announced.None? && p.epoch != peekEpoch {
        urlCacheKey := Empty();
        peekEpoch := peekEpoch + 1;
        return;
      }
      var cacheKeys := CollectCacheKeys(a.renditions);
      var defaultCacheKey := FindDefault(a.renditions);
      peekIdentity := Touch(peekIdentity, p.query, Announcement(a, p.sequence, cacheKeys, defaultCacheKey));
      if |peekIdentity.keys| > RENDITION_CACHE_MAX * 4 {
        peekIdentity := Delete(peekIdentity, peekIdentity.keys[0]);
        urlCacheKey := Empty();
        peekEpoch := peekEpoch + 1;
      }
    }

    /** A rendition read up to its fetch, or served from the cache. */
    method RenditionStart(r: Read) returns (hit: Option<Rendition>, fetch: Option<Fetch>)
      requires Valid()
      modifies this
      ensures (Contents(), fetch) == BeginRead(old(Contents()), r)
      ensures hit == Hit(old(Contents()), r) && (hit.None? <==> fetch.Some?)
      ensures Valid()
    {
      BeginReadGood(Contents(), r);
      hide CachesGood;
      hide Touch;
      var announcement := Get(peekIdentity, r.query);
      var announcedIdentity := if announcement.Some? then Some(announcement.value.identity) else None;
      var advertised := if announcement.None? then None
                        else if r.asDefault then announcement.value.defaultCacheKey
                          else Lookup(announcement.value.cacheKeys, r.kind);
      var selector := if advertised.Some? then advertised.value else r.kind;
      var requestKey := RequestKey(Url(r.query, selector, r.options), announcedIdentity, r.rendererVersion, peekEpoch);
      assert requestKey == RequestFor(Contents(), r);
      var cachedKey := Get(urlCacheKey, requestKey);
      if cachedKey.Some? {
        hit := Get(renditionCache, cachedKey.value);
        if hit.Some? {
          renditionCache := Touch(renditionCache, cachedKey.value, hit.value);
          return hit, None;
        }
      }
      return None, Some(Fetch(requestKey, advertised));
    }

    /** A rendition read after its bytes arrived. */
    method RenditionAnswered(f: Fetch, res: Response)
      requires Valid()
      modifies this
      ensures Contents() == FinishRead(old(Contents()), f, res)
      ensures Valid()
    {
      var c := Contents();
      FinishReadGood(c, f, res);
      assert Good(renditionCache) && Good(urlCacheKey) && |urlCacheKey.keys| <= RENDITION_CACHE_MAX * 4 by {
        hide Bytes;
        hide Distinct;
      }
      hide CachesGood;
      hide Good;
      hide Fit;
      hide FitAliases;
      hide Put;
      hide Touch;
      var identity := if res.etag.Some? then res.etag else if f.advertised.Some? then f.advertised else res.printed;
      var now := Get(peekIdentity, f.request.url.query);
      if identity.None? || res.rendition.size > RENDITION_CACHE_BYTES || f.request.epoch != peekEpoch
         || f.request.announced != (if now.Some? then Some(now.value.identity) else None) {
        return;
      }
      Retain(f.request, EntryKey(f.request, identity.value), res.rendition);
    }

    /** Keeps a rendition as the most recently used one, and its request's alias. */
    method Retain(requestKey: RequestKey, entryKey: EntryKey, rendition: Rendition)
      requires Good(renditionCache) && Good(urlCacheKey) && |urlCacheKey.keys| <= RENDITION_CACHE_MAX * 4
      modifies this`renditionCache, this`urlCacheKey
      ensures renditionCache == Fit(Touch(old(renditionCache), entryKey, rendition))
      ensures urlCacheKey == FitAliases(Put(old(urlCacheKey), requestKey, entryKey))
    {
      TouchGood(renditionCache, entryKey, rendition);
      PutGood(urlCacheKey, requestKey, entryKey);
      hide *;
      renditionCache := FitInPlace(Touch(renditionCache, entryKey, rendition));
      urlCacheKey := FitAliasesInPlace(Put(urlCacheKey, requestKey, entryKey));
    }
  }

  method CollectCacheKeys(renditions: seq<RenditionInfo>) returns (keys: map<Id, Id>)
    ensures keys == CacheKeys(renditions)
  {
    keys := map[];
    assert renditions[..0] == [];
    for i := 0 to |renditions|
      invariant keys == CacheKeys(renditions[..i])
    {
      assert renditions[..i + 1][..i] == renditions[..i];
      if renditions[i].cacheKey.Some? {
        keys := keys[renditions[i].kind := renditions[i].cacheKey.value];
      }
    }
    assert renditions[..|renditions|] == renditions;
  }

  method FindDefault(renditions: seq<RenditionInfo>) returns (key: Option<Id>)
    ensures key == DefaultCacheKey(renditions)
  {
    assert renditions[0..] == renditions;
    for i := 0 to |renditions|
      invariant DefaultCacheKey(renditions) == DefaultCacheKey(renditions[i..])
    {
      if renditions[i].primary {
        return renditions[i].cacheKey;
      }
      assert renditions[i..][1..] == renditions[i + 1..];
    }
    return None;
  }

  /** The eviction loop: the retained bytes are counted once and kept up to date. */
  method FitInPlace(start: JsMap<EntryKey, Rendition>) returns (cache: JsMap<EntryKey, Rendition>)
    requires Good(start)
    ensures cache == Fit(start)
  {
    cache := start;
    var retainedBytes := CountBytes(cache);
    while |cache.keys| > RENDITION_CACHE_MAX || retainedBytes > RENDITION_CACHE_BYTES
      invariant Good(cache) && retainedBytes == Bytes(cache) && Fit(cache) == Fit(start)
      decreases |cache.keys|
    {
      EvictOldest(cache);
      var oldest := cache.keys[0];
      retainedBytes := retainedBytes - cache.at[oldest].size;
      cache := Delete(cache, oldest);
    }
  }

  lemma EvictOldest(cache: JsMap<EntryKey, Rendition>)
    requires Good(cache) && (|cache.keys| > RENDITION_CACHE_MAX || Bytes(cache) > RENDITION_CACHE_BYTES)
    ensures cache.keys != [] && cache.keys[0] in cache.at
    ensures var fewer := Delete(cache, cache.keys[0]);
            Good(fewer) && |fewer.keys| < |cache.keys| && Fit(fewer) == Fit(cache)
            && Bytes(fewer) == Bytes(cache) - cache.at[cache.keys[0]].size
  {
    var fewer := Delete(cache, cache.keys[0]);
    DeleteGood(cache, cache.keys[0]);
    WithoutFirst(cache.keys);
    SumSame(cache.keys[1..], SizeOf(cache), SizeOf(fewer));
  }

  method CountBytes(cache: JsMap<EntryKey, Rendition>) returns (total: nat)
    requires Good(cache)
    ensures total == Bytes(cache)
  {
    total := 0;
    for i := 0 to |cache.keys|
      invariant total == SumBy(cache.keys[..i], SizeOf(cache))
    {
      assert cache.keys[..i + 1] == cache.keys[..i] + [cache.keys[i]];
      SumAppend(cache.keys[..i], cache.keys[i], SizeOf(cache));
      total := total + cache.at[cache.keys[i]].size;
    }
    assert cache.keys[..|cache.keys|] == cache.keys;
  }

  method FitAliasesInPlace(start: JsMap<RequestKey, EntryKey>) returns (aliases: JsMap<RequestKey, EntryKey>)
    requires Good(start) && |start.keys| <= RENDITION_CACHE_MAX * 4 + 1
    ensures aliases == FitAliases(start)
  {
    aliases := start;
    while |aliases.keys| > RENDITION_CACHE_MAX * 4
      invariant Good(aliases) && (aliases == start
                || (|aliases.keys| <= RENDITION_CACHE_MAX * 4 && aliases == FitAliases(start)))
      decreases |aliases.keys|
    {
      DeleteGood(aliases, aliases.keys[0]);
      aliases := Delete(aliases, aliases.keys[0]);
    }
  }
}
