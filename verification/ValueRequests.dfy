/** What a rendition read asks for, and which answers are committed and kept, told by what was announced so far. */
module ValueRequests {
  import opened Identity
  import opened Ordered
  import opened JsMaps
  import opened Values

  // ---------------------------------------------------------------------
  // The keys an announcement declares

  /** The first rendition marked as the default one. */
  ghost predicate FirstPrimary(renditions: seq<RenditionInfo>, i: int) {
    0 <= i < |renditions| && renditions[i].primary && forall j :: 0 <= j < i ==> !renditions[j].primary
  }

  /** The last rendition of a kind that has a cache key. */
  ghost predicate LastKeyed(renditions: seq<RenditionInfo>, kind: Id, i: int) {
    && 0 <= i < |renditions| && renditions[i].kind == kind && renditions[i].cacheKey.Some?
    && forall j :: i < j < |renditions| ==> renditions[j].kind != kind || renditions[j].cacheKey.None?
  }

  /** The key for a read, if the announcement declares one. */
  ghost predicate KeyFor(renditions: seq<RenditionInfo>, r: Read, key: Option<Id>) {
    if r.asDefault then
      if exists i :: FirstPrimary(renditions, i)
        then exists i :: FirstPrimary(renditions, i) && key == renditions[i].cacheKey
      else key.None?
    else if exists i :: LastKeyed(renditions, r.kind, i) then
      exists i :: LastKeyed(renditions, r.kind, i) && key == renditions[i].cacheKey
    else key.None?
  }

  lemma {:induction false} DefaultKey(renditions: seq<RenditionInfo>)
    ensures if exists i :: FirstPrimary(renditions, i)
            then exists i :: FirstPrimary(renditions, i) && DefaultCacheKey(renditions) == renditions[i].cacheKey
            else DefaultCacheKey(renditions).None?
  {
    if renditions != [] {
      if renditions[0].primary {
        assert FirstPrimary(renditions, 0);
      } else {
        DefaultKey(renditions[1..]);
        forall i
          ensures FirstPrimary(renditions, i) <==> FirstPrimary(renditions[1..], i - 1)
        {
          PrimaryBehind(renditions, i);
        }
        if exists i :: FirstPrimary(renditions, i) {
          var i :| FirstPrimary(renditions, i);
          assert FirstPrimary(renditions[1..], i - 1);
          var k :| FirstPrimary(renditions[1..], k) && DefaultCacheKey(renditions[1..]) == renditions[1..][k].cacheKey;
          assert FirstPrimary(renditions, k + 1);
        } else {
          forall k
            ensures !FirstPrimary(renditions[1..], k)
          {
            assert !FirstPrimary(renditions, k + 1);
          }
        }
      }
    }
  }

  lemma PrimaryBehind(renditions: seq<RenditionInfo>, i: int)
    requires renditions != [] && !renditions[0].primary
    ensures FirstPrimary(renditions, i) <==> FirstPrimary(renditions[1..], i - 1)
  {
    if FirstPrimary(renditions[1..], i - 1) {
      forall j | 0 <= j < i
        ensures !renditions[j].primary
      {
        assert j > 0 ==> renditions[j] == renditions[1..][j - 1];
      }
    }
  }

  lemma {:induction false} NamedKey(renditions: seq<RenditionInfo>, kind: Id)
    ensures if exists i :: LastKeyed(renditions, kind, i)
            then exists i ::
              LastKeyed(renditions, kind, i) && Lookup(CacheKeys(renditions), kind) == renditions[i].cacheKey
            else Lookup(CacheKeys(renditions), kind).None?
  {
    if renditions != [] {
      var front, last := renditions[..|renditions| - 1], renditions[|renditions| - 1];
      NamedKey(front, kind);
      assert CacheKeys(renditions) ==
             if last.cacheKey.Some? then CacheKeys(front)[last.kind := last.cacheKey.value] else CacheKeys(front);
      if last.kind == kind && last.cacheKey.Some? {
        assert LastKeyed(renditions, kind, |front|);
      } else {
        forall i
          ensures LastKeyed(renditions, kind, i) <==> LastKeyed(front, kind, i)
        {
          KeyedBefore(front, last, kind, i);
          assert renditions == front + [last];
        }
      }
      hide CacheKeys;
    }
  }

  lemma KeyedBefore(front: seq<RenditionInfo>, last: RenditionInfo, kind: Id, i: int)
    requires last.kind != kind || last.cacheKey.None?
    ensures LastKeyed(front + [last], kind, i) <==> LastKeyed(front, kind, i)
  {
    if LastKeyed(front + [last], kind, i) {
      assert i != |front|;
      forall j | i < j < |front|
        ensures front[j].kind != kind || front[j].cacheKey.None?
      {
        assert (front + [last])[j] == front[j];
      }
    }
  }

  /** What is remembered of an announcement answers for its renditions. */
  lemma AnnouncedKeys(p: Peek, a: Announced, c: Client, r: Read)
    requires Get(c.announced, r.query) == Some(Announce(p, a))
    ensures KeyFor(a.renditions, r, AdvertisedFor(c, r))
  {
    DefaultKey(a.renditions);
    NamedKey(a.renditions, r.kind);
    hide DefaultCacheKey;
    hide CacheKeys;
    hide FirstPrimary;
    hide LastKeyed;
  }

  // ---------------------------------------------------------------------
  // What is remembered is the newest commit

  /** The newest commit of a query: the last one, and of the highest sequence. */
  ghost predicate NewestCommit(commits: seq<Commit>, query: Id, n: int) {
    && 0 <= n < |commits| && commits[n].query == query
    && forall i :: n < i < |commits| ==> commits[i].query != query
  }

  ghost predicate RemembersAt(commits: seq<Commit>, query: Id, a: Announcement, n: int) {
    && NewestCommit(commits, query, n)
    && a == Announce(Peek(query, commits[n].sequence, 0), commits[n].announced)
  }

  ghost predicate Remembered(commits: seq<Commit>, query: Id, a: Announcement) {
    exists n :: RemembersAt(commits, query, a, n)
  }

  ghost predicate AllRemembered(w: World) {
    forall q :: q in w.client.announced.at ==> Remembered(w.commits, q, w.client.announced.at[q])
  }

  lemma RememberedMore(commits: seq<Commit>, last: Commit, query: Id, a: Announcement)
    requires Remembered(commits, query, a) && last.query != query
    ensures Remembered(commits + [last], query, a)
  {
    var n :| RemembersAt(commits, query, a, n);
    hide Announce;
    assert RemembersAt(commits + [last], query, a, n);
  }

  lemma RememberedLast(commits: seq<Commit>, p: Peek, a: Announced)
    ensures Remembered(commits + [Commit(p.query, p.sequence, a)], p.query, Announce(p, a))
  {
    var all := commits + [Commit(p.query, p.sequence, a)];
    assert Announce(p, a) == Announce(Peek(p.query, p.sequence, 0), a);
    hide Announce;
    assert RemembersAt(all, p.query, Announce(p, a), |commits|);
  }

  /** What a committed announcement leaves remembered. */
  lemma CommitRemembers(c: Client, p: Peek, a: Announced)
    requires CachesGood(c) && Commits(c, p)
    ensures forall q :: q in FinishPeek(c, p, a).announced.at ==>
              if q == p.query then FinishPeek(c, p, a).announced.at[q] == Announce(p, a)
              else q in c.announced.at && FinishPeek(c, p, a).announced.at[q] == c.announced.at[q]
  {
    TouchGood(c.announced, p.query, Announce(p, a));
    hide Touch;
    hide Distinct;
    hide Bytes;
    hide Without;
    hide Announce;
  }

  lemma UncommittedRemembers(c: Client, p: Peek, a: Announced)
    requires !Commits(c, p)
    ensures FinishPeek(c, p, a).announced == c.announced
  {
    hide Touch;
    hide Delete;
    hide Announce;
  }

  lemma ReadsRemember(w: World, s: Step)
    requires s.StartRead? || s.EndRead? || s.StartPeek?
    ensures Next(w, s).client.announced == w.client.announced && Next(w, s).commits == w.commits
  {
    hide Fit;
    hide Touch;
    hide FitAliases;
    hide Put;
    hide Hit;
    hide RequestFor;
    hide Keeps;
  }

  lemma StepRemembers(w: World, s: Step)
    requires AllRemembered(w) && CachesGood(w.client)
    ensures AllRemembered(Next(w, s))
  {
    hide Remembered;
    hide CachesGood;
    hide FinishPeek;
    hide Announce;
    hide Commits;
    hide FinishRead;
    match s
    case EndPeek(p, a) =>
      if p in w.peeks && a.Some? {
        if Commits(w.client, p) {
          CommitRemembers(w.client, p, a.value);
          RememberedLast(w.commits, p, a.value);
          forall q | q in Next(w, s).client.announced.at && q != p.query
            ensures Remembered(Next(w, s).commits, q, Next(w, s).client.announced.at[q])
          {
            RememberedMore(w.commits, Commit(p.query, p.sequence, a.value), q, w.client.announced.at[q]);
          }
        } else {
          UncommittedRemembers(w.client, p, a.value);
        }
      }
    case _ => ReadsRemember(w, s);
  }

  lemma {:induction false} RunRemembers(steps: seq<Step>)
    ensures AllRemembered(Run(steps))
  {
    hide AllRemembered;
    hide Next;
    if steps != [] {
      RunRemembers(steps[..|steps| - 1]);
      RunCaches(steps[..|steps| - 1]);
      StepRemembers(Run(steps[..|steps| - 1]), steps[|steps| - 1]);
    } else {
      NothingRemembered();
    }
  }

  lemma NothingRemembered()
    ensures AllRemembered(Run([]))
  {
  }

  lemma RunCaches(steps: seq<Step>)
    ensures CachesGood(Run(steps).client)
  {
    hide Run;
    hide InFlight;
    hide CommitsGood;
    hide CachesGood;
    hide Provenance;
    RunInv(steps);
  }

  // ---------------------------------------------------------------------
  // What a read asks for

  /**
   * The request of a read, after any run: the query, options and renderer version of the read and the epoch of
   * the client; and if the newest commit of its query is remembered, what that announced and the key it
   * declares: for a default read that of the first default rendition, for a named one that of the last
   * rendition of the kind that has one. Without a key it asks for the plain kind.
   */
  lemma RequestExactly(steps: seq<Step>, r: Read)
    ensures var c, request := Run(steps).client, RequestFor(Run(steps).client, r);
            && request.url.query == r.query && request.url.options == r.options
            && request.rendererVersion == r.rendererVersion && request.epoch == c.epoch
            && (r.query !in c.announced.at ==> request.announced.None? && request.url.selector == r.kind)
            && (r.query in c.announced.at ==>
                  exists n, key :: AsksAt(Run(steps).commits, r, request, n, key))
  {
    hide Run;
    hide Remembered;
    hide KeyFor;
    hide AdvertisedFor;
    RunRemembers(steps);
    var w := Run(steps);
    if r.query in w.client.announced.at {
      var n := AskedAt(w, r);
      assert AsksAt(w.commits, r, RequestFor(w.client, r), n, AdvertisedFor(w.client, r));
    } else {
      Unannounced(w.client, r);
    }
  }

  /** The request is what the `n`-th commit, the newest of its query, makes of the read. */
  ghost predicate AsksAt(commits: seq<Commit>, r: Read, request: RequestKey, n: int, key: Option<Id>) {
    && NewestCommit(commits, r.query, n) && KeyFor(commits[n].announced.renditions, r, key)
    && request.announced == Some(commits[n].announced)
    && request.url.selector == if key.Some? then key.value else r.kind
  }

  lemma Unannounced(c: Client, r: Read)
    requires r.query !in c.announced.at
    ensures AdvertisedFor(c, r).None? && AnnouncedFor(c, r.query).None?
  {
  }

  lemma AskedAt(w: World, r: Read) returns (n: int)
    requires AllRemembered(w) && r.query in w.client.announced.at
    ensures NewestCommit(w.commits, r.query, n)
    ensures KeyFor(w.commits[n].announced.renditions, r, AdvertisedFor(w.client, r))
    ensures AnnouncedFor(w.client, r.query) == Some(w.commits[n].announced)
  {
    hide KeyFor;
    hide AdvertisedFor;
    assert Remembered(w.commits, r.query, w.client.announced.at[r.query]);
    n :| RemembersAt(w.commits, r.query, w.client.announced.at[r.query], n);
    AnnouncedKeys(Peek(r.query, w.commits[n].sequence, 0), w.commits[n].announced, w.client, r);
  }

  // ---------------------------------------------------------------------
  // Which peeks commit

  /** Every commit of the peek's query so far is of an earlier request. */
  ghost predicate NewerThanAll(commits: seq<Commit>, p: Peek) {
    forall i :: 0 <= i < |commits| && commits[i].query == p.query ==> commits[i].sequence < p.sequence
  }

  /**
   * A peek in flight commits exactly when every earlier commit of its query is of an earlier request, and
   * unless the query's announcement is remembered, no ordering knowledge was lost since it began.
   */
  lemma CommitsExactly(steps: seq<Step>, p: Peek)
    requires p in Run(steps).peeks
    ensures var w := Run(steps);
            Commits(w.client, p) <==>
              NewerThanAll(w.commits, p) && (p.query in w.client.announced.at || p.epoch == w.client.epoch)
  {
    RunInv(steps);
    RunRemembers(steps);
    var w := Run(steps);
    hide Run;
    hide CachesGood;
    hide Provenance;
    if Commits(w.client, p) {
      CommitIsNewest(w, p);
    } else {
      hide InFlight;
      hide CommitsGood;
      if p.query in w.client.announced.at {
        assert Remembered(w.commits, p.query, w.client.announced.at[p.query]);
        var n :| RemembersAt(w.commits, p.query, w.client.announced.at[p.query], n);
        assert w.commits[n].sequence > p.sequence;
      }
    }
  }

  /**
   * What a peek's answer does. A commit is remembered as the newest, everything else as it was, but the least
   * recently announced query is forgotten beyond 256. Ordering knowledge, and with it every alias, is lost just
   * then, and on an answer that can be ordered against nothing; an older answer changes nothing.
   */
  lemma AnswerEffect(c: Client, p: Peek, a: Announced)
    requires CachesGood(c)
    ensures var c' := FinishPeek(c, p, a);
            && c'.cache == c.cache && c'.sequence == c.sequence
            && var full := |c.announced.keys| == 256 && p.query !in c.announced.at;
            var lost := (Commits(c, p) && full) || (!Commits(c, p) && p.query !in c.announced.at);
            && (if lost then c'.epoch == c.epoch + 1 && c'.aliases == Empty()
                else c'.epoch == c.epoch && c'.aliases == c.aliases)
            && (if !Commits(c, p) then c'.announced == c.announced
                else
                  && p.query in c'.announced.at && c'.announced.at[p.query] == Announce(p, a)
                  && c'.announced.keys == (if full then c.announced.keys[1..] else Without(c.announced.keys, p.query))
                     + [p.query]
                  && forall q :: q in c'.announced.keys && q != p.query ==>
                       q in c.announced.at && c'.announced.at[q] == c.announced.at[q])
  {
    hide CacheGood;
    hide AliasesGood;
    hide Announce;
    hide Touch;
    TouchGood(c.announced, p.query, Announce(p, a));
    if p.query !in c.announced.at {
      WithoutAbsent(c.announced.keys, p.query);
    }
    if Commits(c, p) && |c.announced.keys| == 256 && p.query !in c.announced.at {
      OldestForgotten(c.announced, p.query, Announce(p, a));
    }
    hide Distinct;
    hide Without;
  }

  lemma OldestForgotten(announced: JsMap<Id, Announcement>, query: Id, a: Announcement)
    requires Good(announced) && announced.keys != [] && query !in announced.at
    ensures var touched := Touch(announced, query, a);
            && touched.keys == announced.keys + [query]
            && Delete(touched, touched.keys[0]).keys == announced.keys[1..] + [query]
            && Delete(touched, touched.keys[0]).at == announced.at[query := a] - {announced.keys[0]}
            && announced.keys[0] != query
  {
    TouchGood(announced, query, a);
    WithoutAbsent(announced.keys, query);
    var touched := Touch(announced, query, a);
    WithoutFirst(touched.keys);
    assert touched.keys[1..] == announced.keys[1..] + [query];
    hide Touch;
  }

  // ---------------------------------------------------------------------
  // Which reads go out, and which are kept

  /** A read that is not served goes out with its request and the key it asks for; one that is served is used anew. */
  lemma ReadGoesOut(steps: seq<Step>, r: Read)
    ensures var w := Run(steps);
            var (c', fetch) := BeginRead(w.client, r);
            if Hit(w.client, r).Some? then
              && fetch.None? && c' == w.client.(cache := c'.cache) && c'.cache.at == w.client.cache.at
              && c'.cache.keys != [] && c'.cache.at[c'.cache.keys[|c'.cache.keys| - 1]] == Hit(w.client, r).value
            else
              && c' == w.client && fetch.Some? && fetch.value.request == RequestFor(w.client, r)
              && (r.query !in w.client.announced.at ==> fetch.value.advertised.None?)
              && (r.query in w.client.announced.at ==>
                    exists n :: AsksAt(w.commits, r, fetch.value.request, n, fetch.value.advertised))
  {
    hide Run;
    hide AsksAt;
    RunCaches(steps);
    var w := Run(steps);
    BeginReadGood(w.client, r);
    if Hit(w.client, r).Some? {
      UsedAnew(w.client, r);
    } else {
      GoesOut(steps, r);
    }
    hide CachesGood;
    hide AdvertisedFor;
    hide Hit;
    hide RequestFor;
    hide Touch;
  }

  lemma UsedAnew(c: Client, r: Read)
    requires CachesGood(c) && Hit(c, r).Some?
    ensures var c' := BeginRead(c, r).0;
            c'.cache.keys != [] && c'.cache.keys[|c'.cache.keys| - 1] in c'.cache.at
            && c'.cache.at[c'.cache.keys[|c'.cache.keys| - 1]] == Hit(c, r).value
  {
    var k := c.aliases.at[RequestFor(c, r)];
    TouchGood(c.cache, k, c.cache.at[k]);
    hide Touch;
    hide Bytes;
    hide Distinct;
  }

  lemma GoesOut(steps: seq<Step>, r: Read)
    ensures var w := Run(steps);
            && (r.query !in w.client.announced.at ==> AdvertisedFor(w.client, r).None?)
            && (r.query in w.client.announced.at ==>
                  exists n :: AsksAt(w.commits, r, RequestFor(w.client, r), n, AdvertisedFor(w.client, r)))
  {
    hide Run;
    hide Remembered;
    hide KeyFor;
    RunRemembers(steps);
    var w := Run(steps);
    if r.query in w.client.announced.at {
      var n := AskedAt(w, r);
      assert AsksAt(w.commits, r, RequestFor(w.client, r), n, AdvertisedFor(w.client, r));
    }
  }

  /** What goes out is in flight until it is answered, once, and a peek under a sequence of its own. */
  lemma InFlightUntilAnswered(w: World, s: Step)
    ensures s.StartPeek? ==>
              Next(w, s).peeks == w.peeks + {Peek(s.query, w.client.sequence + 1, w.client.epoch)}
              && Next(w, s).client == w.client.(sequence := w.client.sequence + 1)
    ensures s.EndPeek? ==> Next(w, s).peeks == w.peeks - {s.peek}
    ensures s.EndPeek? && s.announced.None? ==> Next(w, s).client == w.client && Next(w, s).commits == w.commits
    ensures s.StartRead? && BeginRead(w.client, s.read).1.Some? ==>
              Next(w, s).fetches == w.fetches + multiset{BeginRead(w.client, s.read).1.value}
    ensures s.StartRead? && BeginRead(w.client, s.read).1.None? ==> Next(w, s).fetches == w.fetches
    ensures s.EndRead? ==> Next(w, s).fetches == w.fetches - multiset{s.fetch}
    ensures s.EndRead? && s.response.None? ==> Next(w, s).client == w.client && Next(w, s).stores == w.stores
    ensures !s.StartPeek? && !s.EndPeek? ==> Next(w, s).peeks == w.peeks
    ensures !s.StartRead? && !s.EndRead? ==> Next(w, s).fetches == w.fetches
  {
    hide FinishPeek;
    hide FinishRead;
    hide Keeps;
    hide Commits;
    hide Hit;
    hide RequestFor;
    hide Touch;
  }

  ghost function RunOn(w: World, steps: seq<Step>): World {
    if steps == [] then w else Next(RunOn(w, steps[..|steps| - 1]), steps[|steps| - 1])
  }

  /** The identity an answer is kept under: its tag, else the key that was asked for, else what it prints. */
  ghost predicate KeptUnder(f: Fetch, res: Response, identity: Id) {
    if res.etag.Some? then identity == res.etag.value
    else if f.advertised.Some? then identity == f.advertised.value
    else res.printed == Some(identity)
  }

  /** What was announced for a query, as far as it is remembered. */
  ghost predicate SameAnnounced(before: Client, after: Client, query: Id) {
    if query in before.announced.at
    then query in after.announced.at && after.announced.at[query].identity == before.announced.at[query].identity
    else query !in after.announced.at
  }

  /**
   * An answer is kept exactly when it has an identity, is no larger than 64 MiB, and since its read went
   * out neither was anything else announced for the query nor ordering knowledge lost; and then under that identity.
   */
  lemma KeptExactly(w: World, r: Read, more: seq<Step>, res: Response)
    requires BeginRead(w.client, r).1.Some?
    requires BeginRead(w.client, r).1.value in RunOn(Next(w, StartRead(r)), more).fetches
    ensures var f, w1 := BeginRead(w.client, r).1.value, RunOn(Next(w, StartRead(r)), more);
            var w2 := Next(w1, EndRead(f, Some(res)));
            if (exists identity :: KeptUnder(f, res, identity)) && res.rendition.size <= 67108864
               && w1.client.epoch == w.client.epoch && SameAnnounced(w.client, w1.client, r.query)
            then
              && w2.stores == w1.stores + [Store(f.request, res.rendition)]
              && exists identity :: KeptUnder(f, res, identity)
                                    && w2.client.aliases == FitAliases(Put(w1.client.aliases, f.request,
                                       EntryKey(f.request, identity)))
                                    && w2.client.cache == Fit(Touch(w1.client.cache, EntryKey(f.request, identity),
                                       res.rendition))
            else w2.stores == w1.stores && w2.client == w1.client
  {
    var f, w1 := BeginRead(w.client, r).1.value, RunOn(Next(w, StartRead(r)), more);
    hide RunOn;
    AsksNow(w.client, r);
    KeepsSpelled(w1.client, f, res);
    hide Fit;
    hide Touch;
    hide FitAliases;
    hide Put;
    hide Hit;
    hide RequestFor;
    hide AnnouncedFor;
    hide BeginRead;
  }

  lemma AsksNow(c: Client, r: Read)
    requires BeginRead(c, r).1.Some?
    ensures var f := BeginRead(c, r).1.value;
            f.request.epoch == c.epoch && f.request.url.query == r.query
              && f.request.announced == AnnouncedFor(c, r.query)
    ensures forall c' :: SameAnnounced(c, c', r.query) <==> AnnouncedFor(c, r.query) == AnnouncedFor(c', r.query)
  {
  }

  lemma KeepsSpelled(c: Client, f: Fetch, res: Response)
    ensures IdentityOf(f, res).Some? <==> exists identity :: KeptUnder(f, res, identity)
    ensures IdentityOf(f, res).Some? ==> KeptUnder(f, res, IdentityOf(f, res).value)
  {
    if IdentityOf(f, res).Some? {
      assert KeptUnder(f, res, IdentityOf(f, res).value);
    }
  }
}
