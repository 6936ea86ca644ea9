/**
 * The value client's caches as a state machine: peeks announce what a query's value offers, and
 * rendition reads are cached under what was announced, while any number of both are in flight.
 */
module Values {
  import opened Identity
  import opened Ordered
  import opened JsMaps

  const RENDITION_CACHE_MAX: nat := 64
  const RENDITION_CACHE_BYTES: nat := 64 * 1024 * 1024

  /** A declared rendition; `primary` marks the default one. */
  datatype RenditionInfo = RenditionInfo(kind: Id, cacheKey: Option<Id>, version: Option<Id>, primary: bool)

  /** What a peek announced, in full: the announcement's printed identity is injective in it. */
  datatype Announced = Announced(fingerprint: Id, renditions: seq<RenditionInfo>)

  datatype Announcement = Announcement(identity: Announced, sequence: nat, cacheKeys: map<Id, Id>,
    defaultCacheKey: Option<Id>)

  /** The read's address: a query, a rendition selector and the normalized options. */
  datatype Url = Url(query: Id, selector: Id, options: Id)

  datatype RequestKey = RequestKey(url: Url, announced: Option<Announced>, rendererVersion: Option<Id>, epoch: nat)

  datatype EntryKey = EntryKey(request: RequestKey, identity: Id)

  datatype Rendition = Rendition(size: nat, content: Id)

  datatype Client = Client(
    sequence: nat,
    epoch: nat,
    announced: JsMap<Id, Announcement>,
    cache: JsMap<EntryKey, Rendition>,
    aliases: JsMap<RequestKey, EntryKey>)

  /** A peek in flight. */
  datatype Peek = Peek(query: Id, sequence: nat, epoch: nat)

  /** A rendition read: `asDefault` says that the kind is the literal default. */
  datatype Read = Read(query: Id, kind: Id, asDefault: bool, options: Id, rendererVersion: Option<Id>)

  /** A read in flight, with what was announced for its query when it began. */
  datatype Fetch = Fetch(request: RequestKey, advertised: Option<Id>)

  /** A successful read; `printed` is the fingerprint and served kind in print, if there is a fingerprint. */
  datatype Response = Response(rendition: Rendition, etag: Option<Id>, printed: Option<Id>)

  // ---------------------------------------------------------------------
  // Peeks

  function CacheKeys(renditions: seq<RenditionInfo>): map<Id, Id> {
    if renditions == [] then map[]
    else
      var last := renditions[|renditions| - 1];
      var front := CacheKeys(renditions[..|renditions| - 1]);
      if last.cacheKey.Some? then front[last.kind := last.cacheKey.value] else front
  }

  function DefaultCacheKey(renditions: seq<RenditionInfo>): Option<Id> {
    if renditions == [] then None
    else if renditions[0].primary then renditions[0].cacheKey
    else DefaultCacheKey(renditions[1..])
  }

  function BeginPeek(c: Client, query: Id): (Client, Peek) {
    (c.(sequence := c.sequence + 1), Peek(query, c.sequence + 1, c.epoch))
  }

  /** Ordering knowledge was lost: no cached read may be served from before. */
  function Forget(c: Client): Client {
    c.(aliases := Empty(), epoch := c.epoch + 1)
  }

  /** Whether a successful peek's announcement is committed. */
  predicate Commits(c: Client, p: Peek) {
    match Get(c.announced, p.query)
    case Some(a) => p.sequence >= a.sequence
    case None => p.epoch == c.epoch
  }

  function Announce(p: Peek, a: Announced): Announcement {
    Announcement(a, p.sequence, CacheKeys(a.renditions), DefaultCacheKey(a.renditions))
  }

  function FinishPeek(c: Client, p: Peek, a: Announced): Client {
    if Get(c.announced, p.query).Some? && p.sequence < Get(c.announced, p.query).value.sequence then c
    else if Get(c.announced, p.query).None? && p.epoch != c.epoch then Forget(c)
    else
      var announced := Touch(c.announced, p.query, Announce(p, a));
      if |announced.keys| > RENDITION_CACHE_MAX * 4
      then Forget(c.(announced := Delete(announced, announced.keys[0])))
      else c.(announced := announced)
  }

  // ---------------------------------------------------------------------
  // Reads

  function AdvertisedFor(c: Client, r: Read): Option<Id> {
    match Get(c.announced, r.query)
    case None => None
    case Some(a) => if r.asDefault then a.defaultCacheKey else Lookup(a.cacheKeys, r.kind)
  }

  function AnnouncedFor(c: Client, query: Id): Option<Announced> {
    match Get(c.announced, query)
    case None => None
    case Some(a) => Some(a.identity)
  }

  function RequestFor(c: Client, r: Read): RequestKey {
    var advertised := AdvertisedFor(c, r);
    RequestKey(Url(r.query, if advertised.Some? then advertised.value else r.kind, r.options), AnnouncedFor(c, r.query),
      r.rendererVersion, c.epoch)
  }

  /** The cached rendition a read is served, if any. */
  function Hit(c: Client, r: Read): Option<Rendition> {
    match Get(c.aliases, RequestFor(c, r))
    case None => None
    case Some(entry) => Get(c.cache, entry)
  }

  /** A hit becomes the most recently used; a miss goes out. */
  function BeginRead(c: Client, r: Read): (Client, Option<Fetch>) {
    if Hit(c, r).Some?
    then (c.(cache := Touch(c.cache, c.aliases.at[RequestFor(c, r)], Hit(c, r).value)), None)
    else (c, Some(Fetch(RequestFor(c, r), AdvertisedFor(c, r))))
  }

  function SizeOf(cache: JsMap<EntryKey, Rendition>): EntryKey -> nat {
    (k: EntryKey) => if k in cache.at then cache.at[k].size else 0
  }

  ghost function Bytes(cache: JsMap<EntryKey, Rendition>): nat {
    SumBy(cache.keys, SizeOf(cache))
  }

  /** Drops least recently used entries until both bounds hold. */
  ghost function Fit(cache: JsMap<EntryKey, Rendition>): JsMap<EntryKey, Rendition>
    decreases |cache.keys|
  {
    if cache.keys == [] || (|cache.keys| <= RENDITION_CACHE_MAX && Bytes(cache) <= RENDITION_CACHE_BYTES) then cache
    else
      WithoutFewer(cache.keys, cache.keys[0]);
      Fit(Delete(cache, cache.keys[0]))
  }

  function FitAliases(aliases: JsMap<RequestKey, EntryKey>): JsMap<RequestKey, EntryKey> {
    if |aliases.keys| > RENDITION_CACHE_MAX * 4 then Delete(aliases, aliases.keys[0]) else aliases
  }

  function IdentityOf(f: Fetch, res: Response): Option<Id> {
    if res.etag.Some? then res.etag else if f.advertised.Some? then f.advertised else res.printed
  }

  /** Whether a finished read may be kept: nothing announced since, no knowledge lost, and not too large. */
  predicate Keeps(c: Client, f: Fetch, res: Response) {
    && IdentityOf(f, res).Some? && res.rendition.size <= RENDITION_CACHE_BYTES
    && f.request.epoch == c.epoch && f.request.announced == AnnouncedFor(c, f.request.url.query)
  }

  ghost function FinishRead(c: Client, f: Fetch, res: Response): Client {
    if !Keeps(c, f, res) then c
    else
      var entry := EntryKey(f.request, IdentityOf(f, res).value);
      c.(cache := Fit(Touch(c.cache, entry, res.rendition)), aliases := FitAliases(Put(c.aliases, f.request, entry)))
  }

  // ---------------------------------------------------------------------
  // Any interleaving

  datatype Commit = Commit(query: Id, sequence: nat, announced: Announced)
  datatype Store = Store(request: RequestKey, rendition: Rendition)

  /** The client, what is in flight, and what was committed and stored so far, in order. */
  datatype World = World(client: Client, peeks: set<Peek>, fetches: multiset<Fetch>, commits: seq<Commit>,
    stores: seq<Store>)

  /** An answer of nothing is a failure, a refusal or a malformed response. */
  datatype Step =
    | StartPeek(query: Id)
    | EndPeek(peek: Peek, announced: Option<Announced>)
    | StartRead(read: Read)
    | EndRead(fetch: Fetch, response: Option<Response>)

  /** A step for something not in flight does nothing. */
  ghost function Next(w: World, s: Step): World {
    match s
    case StartPeek(query) =>
      var (c, p) := BeginPeek(w.client, query);
      w.(client := c, peeks := w.peeks + {p})
    case EndPeek(p, a) =>
      if p !in w.peeks then w
      else if a.None? then w.(peeks := w.peeks - {p})
      else
        w.(client := FinishPeek(w.client, p, a.value), peeks := w.peeks - {p},
           commits := if Commits(w.client, p) then w.commits + [Commit(p.query, p.sequence, a.value)] else w.commits)
    case StartRead(r) =>
      var (c, f) := BeginRead(w.client, r);
      w.(client := c, fetches := if f.Some? then w.fetches + multiset{f.value} else w.fetches)
    case EndRead(f, res) =>
      if f !in w.fetches then w
      else if res.None? then w.(fetches := w.fetches - multiset{f})
      else
        w.(client := FinishRead(w.client, f, res.value), fetches := w.fetches - multiset{f},
           stores := if Keeps(w.client, f, res.value) then w.stores + [Store(f.request, res.value.rendition)]
             else w.stores)
  }

  ghost function Run(steps: seq<Step>): World {
    if steps == [] then World(Client(0, 0, Empty(), Empty(), Empty()), {}, multiset{}, [], [])
    else Next(Run(steps[..|steps| - 1]), steps[|steps| - 1])
  }

  // ---------------------------------------------------------------------
  // Bounds and provenance of the caches

  ghost predicate AnnouncedGood(announced: JsMap<Id, Announcement>) {
    Good(announced) && |announced.keys| <= RENDITION_CACHE_MAX * 4
  }

  ghost predicate CacheGood(cache: JsMap<EntryKey, Rendition>) {
    Good(cache) && |cache.keys| <= RENDITION_CACHE_MAX && Bytes(cache) <= RENDITION_CACHE_BYTES
  }

  /** Every alias names an entry stored for the very same request. */
  ghost predicate AliasesGood(aliases: JsMap<RequestKey, EntryKey>) {
    Good(aliases) && |aliases.keys| <= RENDITION_CACHE_MAX * 4 && forall r ::
      r in aliases.at ==> aliases.at[r].request == r
  }

  ghost predicate CachesGood(c: Client) {
    AnnouncedGood(c.announced) && CacheGood(c.cache) && AliasesGood(c.aliases)
  }

  /** Every cached rendition came from a kept read of the request its key names. */
  ghost predicate Provenance(c: Client, stores: seq<Store>) {
    forall k :: k in c.cache.at ==> Store(k.request, c.cache.at[k]) in stores
  }

  lemma {:induction false} WithoutFewer(xs: seq<EntryKey>, x: EntryKey)
    ensures |Without(xs, x)| <= |xs| && (x in xs ==> |Without(xs, x)| < |xs|)
  {
    if xs != [] {
      assert xs == [xs[0]] + xs[1..];
      WithoutFewer(xs[1..], x);
    }
  }

  lemma {:induction false} FitBounds(cache: JsMap<EntryKey, Rendition>)
    requires Good(cache)
    ensures CacheGood(Fit(cache))
    ensures forall k :: k in Fit(cache).at ==> k in cache.at && Fit(cache).at[k] == cache.at[k]
    decreases |cache.keys|
  {
    if cache.keys != [] && (|cache.keys| > RENDITION_CACHE_MAX || Bytes(cache) > RENDITION_CACHE_BYTES) {
      DeleteGood(cache, cache.keys[0]);
      FitBounds(Delete(cache, cache.keys[0]));
    }
  }

  ghost predicate TooMuch(cache: JsMap<EntryKey, Rendition>) {
    |cache.keys| > RENDITION_CACHE_MAX || Bytes(cache) > RENDITION_CACHE_BYTES
  }

  /** One turn of the eviction. */
  lemma FitStep(cache: JsMap<EntryKey, Rendition>)
    requires Good(cache) && cache.keys != []
    ensures !TooMuch(cache) ==> Fit(cache) == cache
    ensures TooMuch(cache) ==> Fit(cache) == Fit(Delete(cache, cache.keys[0]))
    ensures var fewer := Delete(cache, cache.keys[0]);
            Good(fewer) && fewer.keys == cache.keys[1..] && fewer.at == cache.at - {cache.keys[0]}
  {
    DeleteGood(cache, cache.keys[0]);
    WithoutFirst(cache.keys);
    hide Bytes;
    hide Without;
    hide Distinct;
  }

  /** Evicting to fit is least recently used first: it keeps a suffix of the use order. */
  lemma {:induction false} FitKeepsNewest(cache: JsMap<EntryKey, Rendition>)
    requires Good(cache)
    ensures |Fit(cache).keys| <= |cache.keys| && Fit(cache).keys == cache.keys[|cache.keys| - |Fit(cache).keys|..]
    decreases |cache.keys|
  {
    if cache.keys != [] {
      FitStep(cache);
      hide Fit;
      hide Delete;
      hide Good;
      hide TooMuch;
      if TooMuch(cache) {
        FitKeepsNewest(Delete(cache, cache.keys[0]));
        SuffixOfTail(cache.keys, |Fit(cache).keys|);
      }
    }
  }

  lemma SuffixOfTail(xs: seq<EntryKey>, n: nat)
    requires n < |xs|
    ensures xs[1..][|xs| - 1 - n..] == xs[|xs| - n..]
  {
  }

  lemma OneEntryBytes(cache: JsMap<EntryKey, Rendition>)
    ensures |cache.keys| == 1 ==> Bytes(cache) == SizeOf(cache)(cache.keys[0])
  {
    assert |cache.keys| == 1 ==> cache.keys[1..] == [] && SumBy(cache.keys[1..], SizeOf(cache)) == 0;
  }

  /** The entry touched last is kept, as long as it fits alone. */
  lemma {:induction false} FitKeepsLast(cache: JsMap<EntryKey, Rendition>)
    requires Good(cache) && cache.keys != [] && SizeOf(cache)(cache.keys[|cache.keys| - 1]) <= RENDITION_CACHE_BYTES
    ensures cache.keys[|cache.keys| - 1] in Fit(cache).at
    decreases |cache.keys|
  {
    TooMuchForOne(cache);
    FitStep(cache);
    var fewer := Delete(cache, cache.keys[0]);
    var last := cache.keys[|cache.keys| - 1];
    assert last in cache.at && (|cache.keys| >= 2 ==> last != cache.keys[0]);
    hide Fit;
    hide Delete;
    hide Good;
    hide TooMuch;
    if TooMuch(cache) {
      assert fewer.keys[|fewer.keys| - 1] == last;
      FitKeepsLast(fewer);
    }
  }

  lemma TooMuchForOne(cache: JsMap<EntryKey, Rendition>)
    requires cache.keys != [] && SizeOf(cache)(cache.keys[|cache.keys| - 1]) <= RENDITION_CACHE_BYTES
    ensures TooMuch(cache) ==> |cache.keys| >= 2
  {
    OneEntryBytes(cache);
    hide Bytes;
  }

  lemma TouchSameBytes(cache: JsMap<EntryKey, Rendition>, k: EntryKey)
    requires Good(cache) && k in cache.at
    ensures Bytes(Touch(cache, k, cache.at[k])) == Bytes(cache)
  {
    var touched := Touch(cache, k, cache.at[k]);
    TouchGood(cache, k, cache.at[k]);
    assert touched.at == cache.at;
    assert forall x :: SizeOf(touched)(x) == SizeOf(cache)(x);
    hide Touch;
    hide Without;
    SumSame(touched.keys, SizeOf(cache), SizeOf(touched));
    hide SizeOf;
    hide SumBy;
    SumMoved(cache.keys, k, SizeOf(cache));
  }

  /** Moving a member to the end changes no sum. */
  lemma SumMoved(xs: seq<EntryKey>, k: EntryKey, w: EntryKey -> nat)
    requires Distinct(xs) && k in xs
    ensures SumBy(Without(xs, k) + [k], w) == SumBy(xs, w)
  {
    var others := (x: EntryKey) => if x == k then 0 else w(x);
    SumAppend(Without(xs, k), k, w);
    SumWithout(xs, k, w, others);
    SumSplit(xs, k, w, others);
  }

  lemma {:induction false} SumSplit(xs: seq<EntryKey>, k: EntryKey, w: EntryKey -> nat, others: EntryKey -> nat)
    requires Distinct(xs) && k in xs && others(k) == 0 && forall x :: x in xs && x != k ==> others(x) == w(x)
    ensures SumBy(xs, w) == w(k) + SumBy(xs, others)
  {
    assert xs == [xs[0]] + xs[1..];
    assert xs[0] !in xs[1..];
    if xs[0] == k {
      SumSame(xs[1..], w, others);
    } else {
      SumSplit(xs[1..], k, w, others);
    }
  }

  lemma FinishPeekGood(c: Client, p: Peek, a: Announced)
    requires CachesGood(c)
    ensures CachesGood(FinishPeek(c, p, a)) && FinishPeek(c, p, a).cache == c.cache
  {
    assert AliasesGood(Empty());
    AnnouncingGood(c.announced, p.query, Announce(p, a));
    hide Announce;
    hide AnnouncedGood;
    hide AliasesGood;
    hide CacheGood;
    hide Touch;
    hide Delete;
  }

  lemma AnnouncingGood(announced: JsMap<Id, Announcement>, query: Id, a: Announcement)
    requires AnnouncedGood(announced)
    ensures var touched := Touch(announced, query, a);
            if |touched.keys| > RENDITION_CACHE_MAX * 4 then AnnouncedGood(Delete(touched, touched.keys[0]))
            else AnnouncedGood(touched)
  {
    var touched := Touch(announced, query, a);
    TouchGood(announced, query, a);
    hide Touch;
    if touched.keys != [] {
      DeleteGood(touched, touched.keys[0]);
    }
    hide Delete;
    hide Distinct;
  }

  lemma BeginReadGood(c: Client, r: Read)
    requires CachesGood(c)
    ensures var c' := BeginRead(c, r).0; CachesGood(c') && c'.announced == c.announced && c'.cache.at == c.cache.at
  {
    if Hit(c, r).Some? {
      var k := c.aliases.at[RequestFor(c, r)];
      TouchGood(c.cache, k, c.cache.at[k]);
      TouchSameBytes(c.cache, k);
      hide Touch;
      hide Bytes;
      hide Distinct;
    }
  }

  lemma AliasGood(aliases: JsMap<RequestKey, EntryKey>, entry: EntryKey)
    requires AliasesGood(aliases)
    ensures AliasesGood(FitAliases(Put(aliases, entry.request, entry)))
  {
    var put := Put(aliases, entry.request, entry);
    PutGood(aliases, entry.request, entry);
    if |put.keys| > RENDITION_CACHE_MAX * 4 {
      DeleteGood(put, put.keys[0]);
    }
    hide Distinct;
    hide Without;
  }

  lemma FinishReadGood(c: Client, f: Fetch, res: Response)
    requires CachesGood(c)
    ensures CachesGood(FinishRead(c, f, res)) && FinishRead(c, f, res).announced == c.announced
    ensures Keeps(c, f, res) ==>
              forall k :: k in FinishRead(c, f, res).cache.at ==>
                if k == EntryKey(f.request, IdentityOf(f, res).value)
                  then FinishRead(c, f, res).cache.at[k] == res.rendition
                else k in c.cache.at && FinishRead(c, f, res).cache.at[k] == c.cache.at[k]
  {
    if Keeps(c, f, res) {
      var entry := EntryKey(f.request, IdentityOf(f, res).value);
      AliasGood(c.aliases, entry);
      TouchGood(c.cache, entry, res.rendition);
      FitBounds(Touch(c.cache, entry, res.rendition));
      hide Fit;
      hide Touch;
      hide CacheGood;
      hide AliasesGood;
      hide AnnouncedGood;
      hide FitAliases;
      hide Put;
    }
  }

  // ---------------------------------------------------------------------
  // The order of commits

  ghost predicate InFlight(w: World) {
    && (forall p :: p in w.peeks ==> p.sequence <= w.client.sequence && p.epoch <= w.client.epoch)
    && (forall p, q :: p in w.peeks && q in w.peeks && p.sequence == q.sequence ==> p == q)
    && (forall p, i :: p in w.peeks && 0 <= i < |w.commits| ==> w.commits[i].sequence != p.sequence)
  }

  /** Announcements of one query were committed in strictly increasing order of request. */
  ghost predicate Increasing(commits: seq<Commit>) {
    forall i, j ::
      0 <= i < j < |commits| && commits[i].query == commits[j].query ==> commits[i].sequence < commits[j].sequence
  }

  /** No commit of the query is newer than `bound`. */
  ghost predicate NoneAfter(commits: seq<Commit>, query: Id, bound: int) {
    forall i :: 0 <= i < |commits| && commits[i].query == query ==> commits[i].sequence <= bound
  }

  ghost predicate CommitsGood(w: World) {
    && Increasing(w.commits)
    && (forall i :: 0 <= i < |w.commits| ==> w.commits[i].sequence <= w.client.sequence)
    && (forall q :: q in w.client.announced.at ==> NoneAfter(w.commits, q, w.client.announced.at[q].sequence))
    && (forall p ::
       p in w.peeks && p.query !in w.client.announced.at && p.epoch == w.client.epoch ==>
         NoneAfter(w.commits, p.query, p.sequence))
  }

  ghost predicate Inv(w: World) {
    CachesGood(w.client) && Provenance(w.client, w.stores) && InFlight(w) && CommitsGood(w)
  }

  lemma StartPeekInv(w: World, query: Id)
    requires InFlight(w) && CommitsGood(w)
    ensures InFlight(Next(w, StartPeek(query))) && CommitsGood(Next(w, StartPeek(query)))
  {
  }

  /** A peek that commits is newer than every commit of its query, even one whose announcement was evicted. */
  lemma CommitIsNewest(w: World, p: Peek)
    requires InFlight(w) && CommitsGood(w) && p in w.peeks && Commits(w.client, p)
    ensures forall i :: 0 <= i < |w.commits| && w.commits[i].query == p.query ==> w.commits[i].sequence < p.sequence
  {
    assert p.query in w.client.announced.at ==> NoneAfter(w.commits, p.query, w.client.announced.at[p.query].sequence);
  }

  lemma NoneAfterAppend(commits: seq<Commit>, last: Commit, query: Id, bound: int)
    requires NoneAfter(commits, query, bound) && (last.query == query ==> last.sequence <= bound)
    ensures NoneAfter(commits + [last], query, bound)
  {
  }

  lemma EndPeekInv(w: World, p: Peek, a: Announced)
    requires InFlight(w) && CommitsGood(w) && p in w.peeks && CachesGood(w.client)
    ensures InFlight(Next(w, EndPeek(p, Some(a)))) && CommitsGood(Next(w, EndPeek(p, Some(a))))
  {
    var c, w' := w.client, Next(w, EndPeek(p, Some(a)));
    if Commits(c, p) {
      CommitIsNewest(w, p);
      CommitFlight(w, p, a);
      CommitGood(w, p, a);
    } else {
      assert (w'.client == c || w'.client == Forget(c)) && w'.commits == w.commits;
      hide FinishPeek;
      hide NoneAfter;
      hide Increasing;
      hide CachesGood;
    }
  }

  lemma CommitFlight(w: World, p: Peek, a: Announced)
    requires InFlight(w) && p in w.peeks && Commits(w.client, p)
    ensures InFlight(Next(w, EndPeek(p, Some(a))))
  {
    hide Touch;
    hide Delete;
  }

  lemma IncreasingAppend(commits: seq<Commit>, last: Commit)
    requires Increasing(commits)
    requires forall i :: 0 <= i < |commits| && commits[i].query == last.query ==> commits[i].sequence < last.sequence
    ensures Increasing(commits + [last]) && NoneAfter(commits, last.query, last.sequence)
  {
  }

  /**
   * What a commit does to the client: the announcements left were there or are the new one, and
   * losing one bumps the epoch.
   */
  lemma CommitClient(c: Client, p: Peek, a: Announced)
    requires CachesGood(c) && Commits(c, p)
    ensures var c' := FinishPeek(c, p, a);
            && c'.epoch >= c.epoch && c'.sequence == c.sequence
            && (forall q :: q in c'.announced.at ==>
                  if q == p.query then c'.announced.at[q].sequence == p.sequence
                  else q in c.announced.at && c'.announced.at[q] == c.announced.at[q])
            && (c'.epoch == c.epoch ==> p.query in c'.announced.at && forall q ::
               q in c.announced.at ==> q in c'.announced.at)
  {
    TouchGood(c.announced, p.query, Announce(p, a));
    hide Touch;
    hide Distinct;
    hide Bytes;
    hide Without;
  }

  lemma CommitGood(w: World, p: Peek, a: Announced)
    requires InFlight(w) && CommitsGood(w) && p in w.peeks && Commits(w.client, p) && CachesGood(w.client)
    requires forall i :: 0 <= i < |w.commits| && w.commits[i].query == p.query ==> w.commits[i].sequence < p.sequence
    ensures CommitsGood(Next(w, EndPeek(p, Some(a))))
  {
    var c, last, w' := w.client, Commit(p.query, p.sequence, a), Next(w, EndPeek(p, Some(a)));
    var c' := w'.client;
    assert w'.commits == w.commits + [last] && w'.peeks <= w.peeks && c' == FinishPeek(c, p, a);
    IncreasingAppend(w.commits, last);
    CommitClient(c, p, a);
    hide FinishPeek;
    hide CachesGood;
    hide Increasing;
    hide Commits;
    hide Next;
    forall q | q in c'.announced.at
      ensures NoneAfter(w'.commits, q, c'.announced.at[q].sequence)
    {
      hide NoneAfter;
      NoneAfterAppend(w.commits, last, q, c'.announced.at[q].sequence);
    }
    forall x | x in w'.peeks && x.query !in c'.announced.at && x.epoch == c'.epoch
      ensures NoneAfter(w'.commits, x.query, x.sequence)
    {
      hide NoneAfter;
      NoneAfterAppend(w.commits, last, x.query, x.sequence);
    }
    hide NoneAfter;
  }

  lemma ReadStepInv(w: World, s: Step)
    requires InFlight(w) && CommitsGood(w) && CachesGood(w.client) && Provenance(w.client, w.stores)
    requires s.StartRead? || s.EndRead?
    ensures InFlight(Next(w, s)) && CommitsGood(Next(w, s))
    ensures CachesGood(Next(w, s).client) && Provenance(Next(w, s).client, Next(w, s).stores)
  {
    if s.StartRead? {
      BeginReadGood(w.client, s.read);
    } else if s.fetch in w.fetches && s.response.Some? {
      FinishReadGood(w.client, s.fetch, s.response.value);
    }
    hide CachesGood;
    hide InFlight;
    hide CommitsGood;
    hide Fit;
    hide Touch;
    hide FitAliases;
    hide Hit;
    assert Provenance(Next(w, s).client, Next(w, s).stores);
    hide Provenance;
    SameHistory(w, Next(w, s));
  }

  /** Reads touch neither announcements nor peeks. */
  lemma SameHistory(w: World, w': World)
    requires InFlight(w) && CommitsGood(w)
    requires w'.peeks == w.peeks && w'.commits == w.commits && w'.client.announced == w.client.announced
    requires w'.client.sequence == w.client.sequence && w'.client.epoch == w.client.epoch
    ensures InFlight(w') && CommitsGood(w')
  {
    hide NoneAfter;
    hide Increasing;
  }

  lemma StepInv(w: World, s: Step)
    requires Inv(w)
    ensures Inv(Next(w, s))
  {
    match s
    case StartPeek(query) =>
      StartPeekInv(w, query);
      StartPeekCaches(w, query);
    case EndPeek(p, a) => EndPeekStep(w, p, a);
    case StartRead(r) => ReadStepInv(w, s);
    case EndRead(f, res) => ReadStepInv(w, s);
  }

  lemma StartPeekCaches(w: World, query: Id)
    requires CachesGood(w.client) && Provenance(w.client, w.stores)
    ensures CachesGood(Next(w, StartPeek(query)).client) && Provenance(Next(w, StartPeek(query)).client, w.stores)
  {
    hide Bytes;
  }

  lemma EndPeekStep(w: World, p: Peek, a: Option<Announced>)
    requires Inv(w)
    ensures Inv(Next(w, EndPeek(p, a)))
  {
    if p in w.peeks && a.Some? {
      EndPeekInv(w, p, a.value);
      FinishPeekGood(w.client, p, a.value);
      hide InFlight;
      hide CommitsGood;
      hide CachesGood;
      hide FinishPeek;
    } else {
      hide NoneAfter;
      hide Increasing;
      hide CachesGood;
      hide Provenance;
    }
  }

  /** Every interleaving of peeks and reads keeps the caches bounded and sound. */
  lemma {:induction false} RunInv(steps: seq<Step>)
    ensures Inv(Run(steps))
  {
    if steps != [] {
      RunInv(steps[..|steps| - 1]);
      hide Inv;
      hide Next;
      StepInv(Run(steps[..|steps| - 1]), steps[|steps| - 1]);
    }
  }

  /** The bounds, spelled out: at most 64 renditions and 64 MiB, 256 aliases and 256 announcements. */
  lemma RunBounds(steps: seq<Step>)
    ensures var c := Run(steps).client;
            && |c.cache.keys| <= 64 && Bytes(c.cache) <= 67108864
            && |c.aliases.keys| <= 256 && |c.announced.keys| <= 256
    ensures Increasing(Run(steps).commits)
  {
    RunInv(steps);
    hide Run;
    hide Good;
    hide Bytes;
    hide InFlight;
  }

  /**
   * A cache hit serves what an earlier kept read of the very same request returned: same
   * address, same announced identity, same renderer version, same epoch.
   */
  lemma HitWasStored(steps: seq<Step>, r: Read)
    requires Hit(Run(steps).client, r).Some?
    ensures exists i :: 0 <= i < |Run(steps).stores|
              && Run(steps).stores[i] == Store(RequestFor(Run(steps).client, r), Hit(Run(steps).client, r).value)
  {
    RunInv(steps);
    var w := Run(steps);
    hide Run;
    var k := w.client.aliases.at[RequestFor(w.client, r)];
    assert k.request == RequestFor(w.client, r) by {
      hide Good;
      hide Bytes;
    }
    assert Store(k.request, w.client.cache.at[k]) in w.stores;
  }

  /** A kept read is served at once to the same read begun next. */
  lemma KeptReadHits(c: Client, r: Read, res: Response)
    requires CachesGood(c) && BeginRead(c, r).1.Some?
    requires Keeps(c, BeginRead(c, r).1.value, res)
    ensures Hit(FinishRead(c, BeginRead(c, r).1.value, res), r) == Some(res.rendition)
  {
    var f := BeginRead(c, r).1.value;
    var entry := EntryKey(f.request, IdentityOf(f, res).value);
    KeptEntry(c, f, res, entry);
    KeptAlias(c.aliases, f.request, entry);
    assert f.request == RequestFor(c, r) && RequestFor(FinishRead(c, f, res), r) == f.request;
    hide Fit;
    hide FitAliases;
    hide Put;
    hide CachesGood;
    hide RequestFor;
  }

  lemma KeptEntry(c: Client, f: Fetch, res: Response, entry: EntryKey)
    requires CachesGood(c) && res.rendition.size <= RENDITION_CACHE_BYTES
    ensures var cache := Fit(Touch(c.cache, entry, res.rendition));
            entry in cache.at && cache.at[entry] == res.rendition
  {
    var touched := Touch(c.cache, entry, res.rendition);
    TouchGood(c.cache, entry, res.rendition);
    assert touched.keys[|touched.keys| - 1] == entry;
    hide Touch;
    FitKeepsLast(touched);
    FitBounds(touched);
  }

  lemma KeptAlias(aliases: JsMap<RequestKey, EntryKey>, request: RequestKey, entry: EntryKey)
    requires Good(aliases) && |aliases.keys| <= RENDITION_CACHE_MAX * 4
    ensures Get(FitAliases(Put(aliases, request, entry)), request) == Some(entry)
  {
    var put := Put(aliases, request, entry);
    PutGood(aliases, request, entry);
    hide Distinct;
    assert request !in aliases.at ==> put.keys == aliases.keys + [request];
    if |put.keys| > RENDITION_CACHE_MAX * 4 {
      assert put.keys[0] == aliases.keys[0] && aliases.keys[0] in aliases.keys;
    }
  }
}
