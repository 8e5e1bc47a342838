/**
 The whole-page cache with its reverse index (backend/tools/cachevalidation/cache.go): a page is one
 Redis value, and every video on it has a sorted set naming the pages it is on.
 One reader runs its operations one at a time against one Redis; times are in milliseconds of Redis's
 clock, which may pass between any two commands. Scores come from the client's clock, which is arbitrary.
 */
module WholePage {
  import opened Options
  import opened Sets

  type Key = string

  const LONGEST: int := 15_000

  // ---------------------------------------------------------------------------------------------
  // Redis and the reader's refusals
  // ---------------------------------------------------------------------------------------------

  datatype Page = Page(videos: seq<int>, expires: int)

  /** Members with their scores; no expiry until a PEXPIRE has been carried out. */
  datatype Index = Index(members: map<Key, int>, expires: Option<int>)

  datatype Cache = Cache(pages: map<Key, Page>, indexes: map<int, Index>, unsafePages: set<Key>, now: int)

  predicate Exists(c: Cache, page: Key) {
    page in c.pages && c.now < c.pages[page].expires
  }

  /** `cached` answers with this page. */
  predicate Served(c: Cache, page: Key) {
    Exists(c, page) && page !in c.unsafePages
  }

  predicate IndexLives(c: Cache, video: int) {
    video in c.indexes && (c.indexes[video].expires.None? || c.now < c.indexes[video].expires.value)
  }

  predicate Lists(c: Cache, video: int, page: Key) {
    IndexLives(c, video) && page in c.indexes[video].members
  }

  predicate Outlives(c: Cache, video: int, page: Key)
    requires video in c.indexes && page in c.pages
  {
    c.indexes[video].expires.None? || c.indexes[video].expires.value >= c.pages[page].expires
  }

  /** Every page that would be served is listed under each of its videos by an index that outlives it. */
  ghost predicate Indexed(c: Cache) {
    forall page, video | Served(c, page) && video in c.pages[page].videos ::
      Lists(c, video, page) && Outlives(c, video, page)
  }

  ghost predicate Inv(c: Cache) {
    Indexed(c) && forall page | page in c.pages :: c.pages[page].expires <= c.now + LONGEST
  }

  /** How long a page is kept: five or 45 seconds plus ten to twenty per cent, at most fifteen seconds. */
  function WholePageTtl(first: bool, hash: nat): (ttl: int)
    ensures 0 < ttl <= 15_000
    ensures if first then 5_500 <= ttl <= 6_000 else ttl == 15_000
  {
    var base := if first then 5_000 else 45_000;
    var ttl := base + (10 + hash % 11) * base / 100;
    if ttl > LONGEST then LONGEST else ttl
  }

  // ---------------------------------------------------------------------------------------------
  // What each operation may do
  // ---------------------------------------------------------------------------------------------

  /** Pruning drops only listings of pages that no longer exist. */
  ghost predicate Pruned(c: Cache, d: Cache) {
    && d.pages == c.pages && d.unsafePages == c.unsafePages && d.now >= c.now
    && d.indexes.Keys == c.indexes.Keys
    && (forall v | v in c.indexes :: d.indexes[v].expires == c.indexes[v].expires)
    && (forall v, page | v in c.indexes && page in d.indexes[v].members :: page in c.indexes[v].members)
    && (forall v, page | v in c.indexes && page in c.indexes[v].members ::
          page in d.indexes[v].members || !Exists(d, page))
  }

  /** Complete pruning drops every old enough listing of a page that did not exist any more. */
  ghost predicate Swept(c: Cache, d: Cache, videos: seq<int>, cutoff: int) {
    forall v, p | v in videos && Lists(c, v, p) && c.indexes[v].members[p] <= cutoff && !Exists(c, p) ::
      v in d.indexes && p !in d.indexes[v].members
  }

  /** The listings a pruning is to look at. */
  ghost predicate Discovered(c: Cache, videos: seq<int>, cutoff: int, queries: seq<set<Key>>) {
    && |queries| == |videos|
    && forall j, p | 0 <= j < |videos| ::
         p in queries[j] <==> Lists(c, videos[j], p) && c.indexes[videos[j]].members[p] <= cutoff
  }

  /** Of the first n videos those whose removal was carried out have lost the absent pages. */
  ghost predicate Removed(d: Cache, videos: seq<int>, queries: seq<set<Key>>, absent: set<Key>,
                          removed: set<int>, n: nat)
    requires n <= |videos| == |queries|
  {
    forall j, p | 0 <= j < n && videos[j] in removed && p in queries[j] && p in absent && videos[j] in d.indexes ::
      p !in d.indexes[videos[j]].members
  }

  function Without(indexes: map<int, Index>, video: int, stale: set<Key>): map<int, Index> {
    if video in indexes then indexes[video := indexes[video].(members := indexes[video].members - stale)] else indexes
  }

  lemma RemovingKeepsPruned(c: Cache, d: Cache, video: int, stale: set<Key>)
    requires Pruned(c, d) && forall p | p in stale :: !Exists(d, p)
    ensures Pruned(c, d.(indexes := Without(d.indexes, video, stale)))
  {
    var e := d.(indexes := Without(d.indexes, video, stale));
    assert forall p :: Exists(e, p) <==> Exists(d, p);
  }

  lemma RemovedFurther(d: Cache, videos: seq<int>, queries: seq<set<Key>>, absent: set<Key>, removed: set<int>, n: nat)
    requires n < |videos| == |queries| && Removed(d, videos, queries, absent, removed, n)
    ensures var e := if videos[n] in removed then d.(indexes := Without(d.indexes, videos[n], queries[n] * absent))
                     else d;
            Removed(e, videos, queries, absent, removed, n + 1)
  {
  }

  lemma PrunedByTime(c: Cache, time: nat)
    ensures Pruned(c, c.(now := c.now + time))
  {
  }

  lemma PrunesCompose(c: Cache, d: Cache, e: Cache)
    requires Pruned(c, d) && Pruned(d, e)
    ensures Pruned(c, e)
  {
    forall v, page | v in c.indexes && page in c.indexes[v].members
      ensures page in e.indexes[v].members || !Exists(e, page)
    {
      assert page in d.indexes[v].members || !Exists(d, page);
    }
  }

  lemma NothingToSweep(c: Cache, d: Cache, cutoff: int)
    ensures Swept(c, d, [], cutoff)
  {
  }

  lemma DiscoveredForEach(c: Cache, videos: seq<int>, cutoff: int, queries: seq<set<Key>>)
    requires Discovered(c, videos, cutoff, queries)
    ensures |queries| == |videos|
  {
  }

  lemma SweptWhenRemoved(c: Cache, d: Cache, videos: seq<int>, cutoff: int, queries: seq<set<Key>>, absent: set<Key>,
                         removed: set<int>)
    requires Discovered(c, videos, cutoff, queries) && Pruned(c, d) && forall v | v in videos :: v in removed
    requires forall q, p | q in queries && p in q && !Exists(c, p) :: p in absent
    requires Removed(d, videos, queries, absent, removed, |videos|)
    ensures Swept(c, d, videos, cutoff)
  {
    forall v, p | v in videos && Lists(c, v, p) && c.indexes[v].members[p] <= cutoff && !Exists(c, p)
      ensures v in d.indexes && p !in d.indexes[v].members
    {
      var j :| 0 <= j < |videos| && videos[j] == v;
      assert queries[j] in queries && p in queries[j];
    }
  }

  /** Nothing that was discovered and does not exist any more is left to be removed. */
  lemma SweptWithout(c: Cache, d: Cache, videos: seq<int>, cutoff: int, queries: seq<set<Key>>, candidates: set<Key>)
    requires Discovered(c, videos, cutoff, queries) && (forall q | q in queries :: q <= candidates)
    requires forall p | p in candidates :: Exists(c, p)
    ensures Swept(c, d, videos, cutoff)
  {
    forall v, p | v in videos && Lists(c, v, p) && c.indexes[v].members[p] <= cutoff ensures Exists(c, p) {
      var j :| 0 <= j < |videos| && videos[j] == v;
      assert queries[j] in queries && p in queries[j];
    }
  }

  /** What a fill of `page` leaves of everything else: an index is at most extended by fifteen seconds. */
  ghost predicate FilledElsewhere(c: Cache, d: Cache, page: Key) {
    && d.now == c.now
    && (forall p | p != page :: (p in d.pages <==> p in c.pages) && (p in c.pages ==> d.pages[p] == c.pages[p]))
    && (forall p | p != page :: p in d.unsafePages <==> p in c.unsafePages)
    && (forall v, p | p != page :: Lists(d, v, p) <==> Lists(c, v, p))
    && (forall v | IndexLives(c, v) ::
          v in d.indexes && d.indexes[v].expires in {c.indexes[v].expires, Some(c.now + LONGEST)})
  }

  lemma FillsCompose(c: Cache, d: Cache, e: Cache, page: Key)
    requires FilledElsewhere(c, d, page) && FilledElsewhere(d, e, page)
    ensures FilledElsewhere(c, e, page)
  {
  }

  /** A fill that succeeds serves the page and lists it; one that fails leaves it refused. */
  ghost predicate Filled(c: Cache, d: Cache, page: Key, videos: seq<int>, ttl: int, ok: bool) {
    && FilledElsewhere(c, d, page)
    && (ok ==> page in d.pages && d.pages[page] == Page(videos, c.now + ttl) && page !in d.unsafePages)
    && (ok ==> forall v | v in videos ::
          v in d.indexes && page in d.indexes[v].members && d.indexes[v].expires == Some(c.now + LONGEST))
    && (!ok ==> page in d.unsafePages)
    && (page in d.pages ==> (page in c.pages && d.pages[page] == c.pages[page]) || d.pages[page].expires == c.now + ttl)
  }

  /** The page was served and has not expired since; only a removal can have taken it away. */
  predicate Alive(c: Cache, d: Cache, page: Key) {
    Served(c, page) && d.now < c.pages[page].expires
  }

  /** The pages an invalidation sets out to delete: those listed under the video that contain it. */
  predicate Doomed(c: Cache, video: int, page: Key) {
    Lists(c, video, page) && page in c.pages && video in c.pages[page].videos
  }

  /**
   An invalidation of which only some commands were carried out: `deleted` are the pages whose DEL was,
   `cleared` the indexes whose ZREM was. Doomed pages that had expired when it read them may be left alone.
   */
  ghost predicate Attempted(c: Cache, d: Cache, video: int, deleted: set<Key>, cleared: set<int>) {
    && d.now >= c.now && d.unsafePages == c.unsafePages
    && (forall p | p in d.pages :: p in c.pages && d.pages[p] == c.pages[p])
    && (forall p | p in c.pages && p !in d.pages :: p in deleted && Doomed(c, video, p))
    && (forall p | Doomed(c, video, p) && p in deleted && d.now < c.pages[p].expires :: p !in d.pages)
    && d.indexes.Keys == c.indexes.Keys
    && (forall v | v in c.indexes :: d.indexes[v].expires == c.indexes[v].expires)
    && (forall v, p | v in c.indexes && p in d.indexes[v].members :: p in c.indexes[v].members)
    && (forall v, p | v in c.indexes && p in c.indexes[v].members && p !in d.indexes[v].members ::
          v in cleared && (v == video || Doomed(c, video, p)))
    && (forall v, p | v in c.indexes && v in cleared && Doomed(c, video, p) && d.now < c.pages[p].expires &&
          v in c.pages[p].videos :: p !in d.indexes[v].members)
  }

  /** For pages listed under the video: the ones to delete, and for each index the listings to remove. */
  ghost predicate PlanFor(c: Cache, video: int, listed: set<Key>, deletions: set<Key>, remove: map<int, set<Key>>) {
    && (forall p :: p in deletions <==> p in listed && Exists(c, p) && video in c.pages[p].videos)
    && video in remove && remove[video] == listed
    && Planning(c, video, deletions, remove)
  }

  /** The other indexes lose the pages to delete that they may list, and only those. */
  ghost predicate Planning(c: Cache, video: int, deletions: set<Key>, remove: map<int, set<Key>>) {
    && (forall p | p in deletions :: p in c.pages)
    && (forall v | v in remove && v != video :: remove[v] != {})
    && (forall v, p | v in remove && v != video && p in remove[v] :: p in deletions && v in c.pages[p].videos)
    && (forall p, v | p in deletions && v in c.pages[p].videos && v != video :: v in remove && p in remove[v])
  }

  function Extended(remove: map<int, set<Key>>, video: int, videos: seq<int>, page: Key): map<int, set<Key>>
    requires video in remove
  {
    map v | v in remove.Keys + (set w | w in videos) ::
      if v == video || v !in videos then remove[v] else (if v in remove then remove[v] else {}) + {page}
  }

  lemma ExtendedHas(remove: map<int, set<Key>>, video: int, videos: seq<int>, page: Key, v: int)
    requires video in remove && v != video
    ensures var e := Extended(remove, video, videos, page);
            && (v in e <==> v in remove || v in videos)
            && (v in e ==> forall p :: p in e[v] <==> (v in remove && p in remove[v]) || (p == page && v in videos))
  {
  }

  lemma PlanningStep(c: Cache, video: int, deletions: set<Key>, remove: map<int, set<Key>>, page: Key)
    requires Planning(c, video, deletions, remove) && page in c.pages && video in remove
    ensures Planning(c, video, deletions + {page}, Extended(remove, video, c.pages[page].videos, page))
  {
    var e := Extended(remove, video, c.pages[page].videos, page);
    hide Extended;
    forall v | v != video ensures v in e ==> e[v] != {} {
      ExtendedHas(remove, video, c.pages[page].videos, page, v);
      assert v in c.pages[page].videos ==> page in e[v];
      assert v in remove ==> exists p :: p in remove[v];
    }
    forall v, p | v in e && v != video && p in e[v] ensures p in deletions + {page} && v in c.pages[p].videos {
      ExtendedHas(remove, video, c.pages[page].videos, page, v);
    }
    forall p, v | p in deletions + {page} && v in c.pages[p].videos && v != video ensures v in e && p in e[v] {
      ExtendedHas(remove, video, c.pages[page].videos, page, v);
    }
  }

  function WithoutAll(indexes: map<int, Index>, remove: map<int, set<Key>>, cleared: set<int>): map<int, Index> {
    map v | v in indexes ::
      if v in cleared && v in remove then indexes[v].(members := indexes[v].members - remove[v]) else indexes[v]
  }

  // ---------------------------------------------------------------------------------------------
  // The reader
  // ---------------------------------------------------------------------------------------------

  /** How the commands of a fill's transaction end; Redis does not undo the others when one fails. */
  datatype Outcome = Outcome(set_: bool, added: set<int>, extended: set<int>, replied: bool, cleaned: bool)

  /** Every command of the fill was carried out and answered. */
  predicate Complete(outcome: Outcome, videos: seq<int>) {
    outcome.set_ && outcome.replied && forall v | v in videos :: v in outcome.added && v in outcome.extended
  }

  class WholeReader {
    var pages: map<Key, Page>
    var indexes: map<int, Index>
    var unsafePages: set<Key>
    var now: int

    ghost function Contents(): Cache
      reads this
    {
      Cache(pages, indexes, unsafePages, now)
    }

    constructor ()
      ensures Contents() == Cache(map[], map[], {}, 0) && Inv(Contents())
    {
      pages, indexes, unsafePages, now := map[], map[], {}, 0;
    }

    method Pass(time: nat)
      modifies this`now
      ensures Contents() == old(Contents()).(now := old(now) + time)
    {
      now := now + time;
    }

    method Cached(page: Key) returns (videos: Option<seq<int>>)
      ensures videos.Some? <==> Served(Contents(), page)
      ensures videos.Some? ==> videos.value == pages[page].videos
    {
      if page in unsafePages {
        return None;
      }
      if page !in pages || now >= pages[page].expires {
        return None;
      }
      videos := Some(pages[page].videos);
    }

    /** ZRANGEBYSCORE from minus infinity to the cutoff. */
    method RangeByScore(video: int, cutoff: int) returns (r: set<Key>)
      ensures forall p :: p in r <==> Lists(Contents(), video, p) && indexes[video].members[p] <= cutoff
    {
      if video in indexes && (indexes[video].expires.None? || now < indexes[video].expires.value) {
        var members := indexes[video].members;
        r := set p | p in members && members[p] <= cutoff;
      } else {
        r := {};
      }
    }

    method Remove(video: int, stale: set<Key>)
      modifies this`indexes
      ensures indexes == Without(old(indexes), video, stale)
    {
      if video in indexes {
        indexes := indexes[video := indexes[video].(members := indexes[video].members - stale)];
      }
    }

    /** The first batch: the old enough listings of every video. */
    method Discover(videos: seq<int>, cutoff: int) returns (queries: seq<set<Key>>, candidates: set<Key>)
      ensures Discovered(Contents(), videos, cutoff, queries) && forall q | q in queries :: q <= candidates
    {
      queries, candidates := [], {};
      for i := 0 to |videos|
        invariant |queries| == i && forall q | q in queries :: q <= candidates
        invariant forall j, p | 0 <= j < i ::
                    p in queries[j] <==> Lists(Contents(), videos[j], p) && indexes[videos[j]].members[p] <= cutoff
      {
        var r := RangeByScore(videos[i], cutoff);
        queries := queries + [r];
        candidates := candidates + r;
      }
    }

    /** The third batch, as far as it is carried out. */
    method RemoveStale(videos: seq<int>, queries: seq<set<Key>>, absent: set<Key>, removed: set<int>)
      requires |queries| == |videos| && forall p | p in absent :: !Exists(Contents(), p)
      modifies this`indexes
      ensures Pruned(old(Contents()), Contents())
      ensures Removed(Contents(), videos, queries, absent, removed, |videos|)
    {
      ghost var c := Contents();
      for i := 0 to |videos|
        invariant Pruned(c, Contents()) && Contents() == c.(indexes := indexes)
        invariant Removed(Contents(), videos, queries, absent, removed, i)
      {
        hide Pruned, Removed;
        ghost var d := Contents();
        if videos[i] in removed {
          RemovingKeepsPruned(c, d, videos[i], queries[i] * absent);
          Remove(videos[i], queries[i] * absent);
        }
        RemovedFurther(d, videos, queries, absent, removed, i);
      }
    }

    /**
     Three batches with time between them; the first two may fail, and of the removals any part may be
     carried out.
     */
    method PruneIndexes(videos: seq<int>, cutoff: int, pauses: (nat, nat), failsAt: nat, removed: set<int>)
      returns (ok: bool)
      modifies this`indexes, this`now
      ensures Pruned(old(Contents()), Contents())
      ensures failsAt > 2 ==> ok
      ensures failsAt > 2 && (forall v | v in videos :: v in removed) ==>
                Swept(old(Contents()), Contents(), videos, cutoff)
    {
      hide Pruned, Swept, Discovered, Removed;
      ghost var c := Contents();
      PrunedByTime(c, 0);
      if videos == [] {
        NothingToSweep(c, c, cutoff);
        return true;
      }
      if failsAt == 0 {
        return false;
      }
      var queries, candidates := Discover(videos, cutoff);
      if candidates == {} {
        SweptWithout(c, c, videos, cutoff, queries, candidates);
        return true;
      }
      Pass(pauses.0);
      PrunedByTime(c, pauses.0);
      if failsAt == 1 {
        return false;
      }
      var absent := set p | p in candidates && (p !in pages || now >= pages[p].expires);
      if absent == {} {
        forall p | p in candidates ensures Exists(c, p) { assert p !in absent; }
        SweptWithout(c, Contents(), videos, cutoff, queries, candidates);
        return true;
      }
      Pass(pauses.1);
      ghost var m := Contents();
      PrunedByTime(c, pauses.0 + pauses.1);
      DiscoveredForEach(c, videos, cutoff, queries);
      RemoveStale(videos, queries, absent, removed);
      PrunesCompose(c, m, Contents());
      if forall v | v in videos :: v in removed {
        SweptWhenRemoved(c, Contents(), videos, cutoff, queries, absent, removed);
      }
      ok := failsAt > 2;
    }

    method AddListing(page: Key, video: int, score: int, added: bool, extended: bool)
      modifies this`indexes
      ensures FilledElsewhere(old(Contents()), Contents(), page)
      ensures added && extended ==>
                video in indexes && page in indexes[video].members && indexes[video].expires == Some(now + LONGEST)
      ensures forall v | v != video ::
                (v in indexes <==> v in old(indexes)) && (v in indexes ==> indexes[v] == old(indexes)[v])
    {
      if added {
        if video in indexes && (indexes[video].expires.None? || now < indexes[video].expires.value) {
          indexes := indexes[video := indexes[video].(members := indexes[video].members[page := score])];
        } else {
          indexes := indexes[video := Index(map[page := score], None)];
        }
      }
      if extended && video in indexes && (indexes[video].expires.None? || now < indexes[video].expires.value) {
        indexes := indexes[video := indexes[video].(expires := Some(now + LONGEST))];
      }
    }

    /** The transaction of a fill: SET, then ZADD and PEXPIRE for every video. */
    method Fill(page: Key, videos: seq<int>, ttl: int, score: int, outcome: Outcome)
      requires 0 < ttl <= LONGEST
      modifies this`pages, this`indexes
      ensures FilledElsewhere(old(Contents()), Contents(), page)
      ensures if outcome.set_ then page in pages && pages[page] == Page(videos, now + ttl)
              else (page in pages <==> page in old(pages)) && (page in pages ==> pages[page] == old(pages)[page])
      ensures forall v | v in videos && v in outcome.added && v in outcome.extended ::
                v in indexes && page in indexes[v].members && indexes[v].expires == Some(now + LONGEST)
    {
      if outcome.set_ {
        pages := pages[page := Page(videos, now + ttl)];
      }
      label Adding:
      for i := 0 to |videos|
        invariant FilledElsewhere(old(Contents()), Contents(), page) && pages == old@Adding(pages)
        invariant forall v | v in videos[..i] && v in outcome.added && v in outcome.extended ::
                    v in indexes && page in indexes[v].members && indexes[v].expires == Some(now + LONGEST)
      {
        hide FilledElsewhere;
        assert videos[..i + 1] == videos[..i] + [videos[i]];
        ghost var before := Contents();
        AddListing(page, videos[i], score, videos[i] in outcome.added, videos[i] in outcome.extended);
        FillsCompose(old(Contents()), before, Contents(), page);
      }
      assert videos[..|videos|] == videos;
    }

    /** A fill; `prune` tells how its pruning goes. */
    method Store(page: Key, videos: seq<int>, ttl: int, score: int, cutoff: int, pauses: (nat, nat), failsAt: nat,
                 removed: set<int>, outcome: Outcome)
      returns (ok: bool)
      requires 0 < ttl <= LONGEST
      modifies this
      ensures Stored(old(Contents()), Contents(), page, videos, ttl, ok)
      ensures failsAt > 2 && Complete(outcome, videos) ==> ok
      ensures ok ==> Complete(outcome, videos)
      ensures failsAt > 2 && !ok && outcome.cleaned ==> page !in pages
    {
      var pruned := PruneIndexes(videos, cutoff, pauses, failsAt, removed);
      if !pruned {
        return false;
      }
      ghost var before := Contents();
      unsafePages := unsafePages + {page};
      SameIndexes(before, Contents());
      Fill(page, videos, ttl, score, outcome);
      ghost var filled := Contents();
      ok := outcome.set_ && outcome.replied && forall v | v in videos :: v in outcome.added && v in outcome.extended;
      if ok {
        unsafePages := unsafePages - {page};
      } else if outcome.cleaned {
        pages := pages - {page};
      }
      SameIndexes(filled, Contents());
      assert Filled(before, Contents(), page, videos, ttl, ok);
    }

    /** A miss loads the page and fills the cache; a failed fill does not fail the request. */
    method Read(page: Key, loaded: Option<seq<int>>, ttl: int, score: int, cutoff: int,
                pauses: (nat, nat), failsAt: nat,
                removed: set<int>, outcome: Outcome)
      returns (result: Option<seq<int>>)
      requires 0 < ttl <= LONGEST
      modifies this
      ensures Served(old(Contents()), page) ==> result == Some(old(pages)[page].videos) && Contents() == old(Contents())
      ensures !Served(old(Contents()), page) ==> result == loaded
      ensures !Served(old(Contents()), page) && loaded.None? ==> Contents() == old(Contents())
      ensures !Served(old(Contents()), page) && loaded.Some? ==>
                exists ok :: Stored(old(Contents()), Contents(), page, loaded.value, ttl, ok)
    {
      result := Cached(page);
      if result.Some? {
        return;
      }
      result := loaded;
      if loaded.Some? {
        var ok := Store(page, loaded.value, ttl, score, cutoff, pauses, failsAt, removed, outcome);
      }
    }

    /** The pages to delete, and for each index the listings to remove. */
    method Plan(video: int, listed: set<Key>) returns (deletions: set<Key>, remove: map<int, set<Key>>)
      ensures PlanFor(Contents(), video, listed, deletions, remove)
    {
      deletions, remove := {}, map[video := listed];
      var todo := listed;
      while todo != {}
        invariant todo <= listed
        invariant forall p :: p in deletions <==>
                    p in listed && p !in todo && Exists(Contents(), p) && video in pages[p].videos
        invariant video in remove && remove[video] == listed && Planning(Contents(), video, deletions, remove)
        decreases |todo|
      {
        hide Planning;
        ghost var some := AnyOf(todo);
        var p :| p in todo;
        todo := todo - {p};
        if p in pages && now < pages[p].expires && video in pages[p].videos {
          PlanningStep(Contents(), video, deletions, remove, p);
          deletions := deletions + {p};
          remove := Extended(remove, video, pages[p].videos, p);
        }
      }
    }

    /** The removals of the transaction, as far as they are carried out. */
    method RemoveAll(remove: map<int, set<Key>>, cleared: set<int>)
      modifies this`indexes
      ensures indexes == WithoutAll(old(indexes), remove, cleared)
    {
      var keys: set<int> := remove.Keys;
      while keys != {}
        invariant keys <= remove.Keys && indexes == WithoutAll(old(indexes), remove, cleared - keys)
        decreases |keys|
      {
        ghost var some := AnyOf(keys);
        var v :| v in keys;
        keys := keys - {v};
        if v in cleared {
          Remove(v, remove[v]);
        }
      }
    }

    /**
     Lists the index, reads the pages and removes those that contain the video. The removals are one
     transaction, but when a command of it fails the others are still carried out. It may fail before the
     transaction (failsAt below three), and the answer to the transaction may be lost.
     */
    method Invalidate(video: int, pauses: (nat, nat), failsAt: nat, deleted: set<Key>, cleared: set<int>, replied: bool)
      returns (ok: bool)
      modifies this`pages, this`indexes, this`now
      ensures if failsAt > 2 then Attempted(old(Contents()), Contents(), video, deleted, cleared)
              else Attempted(old(Contents()), Contents(), video, {}, {})
      ensures ok && Inv(old(Contents())) ==> Gone(Contents(), video) && Inv(Contents())
      ensures failsAt > 2 && replied && Suffice(old(Contents()), video, deleted, cleared) ==> ok
    {
      if failsAt == 0 {
        return false;
      }
      var listed: set<Key> := {};
      if video in indexes && (indexes[video].expires.None? || now < indexes[video].expires.value) {
        listed := indexes[video].members.Keys;
      }
      ghost var c := Contents();
      assert forall p :: p in listed <==> Lists(c, video, p);
      if listed == {} {
        NothingListed(c, video, deleted, cleared);
        NothingListed(c, video, {}, {});
        return true;
      }
      Pass(pauses.0);
      if failsAt == 1 {
        return false;
      }
      var deletions, remove := Plan(video, listed);
      ghost var m := Contents();
      Pass(pauses.1);
      if failsAt == 2 {
        return false;
      }
      pages := pages - deletions * deleted;
      RemoveAll(remove, cleared);
      ok := replied && deletions <= deleted && remove.Keys <= cleared;
      if Suffice(c, video, deleted, cleared) {
        PlanSuffices(c, m, video, listed, deletions, remove, deleted, cleared);
      }
      PlanIsPlanned(c, m, Contents(), video, listed, deletions, remove);
      RemovalsAttempted(c, Contents(), video, deletions, remove, deleted, cleared);
      if ok && Inv(c) {
        CompleteClears(c, Contents(), video, deletions, remove, deleted, cleared);
      }
    }
  }

  /** A page that a fill stores is served until exactly its time has passed, and is listed for fifteen seconds. */
  lemma ServedUntilExpiry(c: Cache, d: Cache, page: Key, videos: seq<int>, ttl: int, time: nat)
    requires Stored(c, d, page, videos, ttl, true)
    ensures var later := d.(now := d.now + time);
            && (Served(later, page) <==> time < ttl)
            && page in later.pages && later.pages[page].videos == videos
            && forall v | v in videos :: Lists(later, v, page) <==> time < 15_000
  {
  }

  lemma NothingListed(c: Cache, video: int, deleted: set<Key>, cleared: set<int>)
    requires forall p :: !Lists(c, video, p)
    ensures Attempted(c, c, video, deleted, cleared) && (Inv(c) ==> Gone(c, video))
  {
    forall p | Inv(c) && Served(c, p) ensures video !in c.pages[p].videos {
      assert !Lists(c, video, p);
    }
  }

  /** What `Plan` found out at a moment between c and d: the doomed pages that had not expired. */
  ghost predicate Planned(c: Cache, d: Cache, video: int, deletions: set<Key>, remove: map<int, set<Key>>) {
    && (forall p | p in deletions :: Doomed(c, video, p))
    && (forall p | Doomed(c, video, p) && d.now < c.pages[p].expires :: p in deletions)
    && video in remove && (forall p :: p in remove[video] <==> Lists(c, video, p))
    && (forall v | v in remove && v != video :: remove[v] <= deletions)
    && (forall p, v | p in deletions && v in c.pages[p].videos && v != video :: v in remove && p in remove[v])
  }

  /** No command of the transaction fails. */
  ghost predicate Suffice(c: Cache, video: int, deleted: set<Key>, cleared: set<int>) {
    && video in cleared
    && (forall p | Doomed(c, video, p) :: p in deleted)
    && (forall p, v | Doomed(c, video, p) && v in c.pages[p].videos :: v in cleared)
  }

  lemma PlanIsPlanned(c: Cache, m: Cache, d: Cache, video: int, listed: set<Key>, deletions: set<Key>,
                      remove: map<int, set<Key>>)
    requires PlanFor(m, video, listed, deletions, remove) && forall p :: p in listed <==> Lists(c, video, p)
    requires m == c.(now := m.now) && c.now <= m.now <= d.now
    ensures Planned(c, d, video, deletions, remove)
  {
    forall p | Doomed(c, video, p) && d.now < c.pages[p].expires ensures p in deletions {
      assert Exists(m, p);
    }
  }

  lemma PlanSuffices(c: Cache, m: Cache, video: int, listed: set<Key>, deletions: set<Key>, remove: map<int, set<Key>>,
                     deleted: set<Key>, cleared: set<int>)
    requires PlanFor(m, video, listed, deletions, remove) && forall p :: p in listed <==> Lists(c, video, p)
    requires m == c.(now := m.now) && Suffice(c, video, deleted, cleared)
    ensures deletions <= deleted && remove.Keys <= cleared
  {
    forall p | p in deletions ensures Doomed(c, video, p) {
      assert Exists(m, p);
    }
    forall v | v in remove ensures v in cleared {
      if v != video {
        var p :| p in remove[v];
        assert Doomed(c, video, p);
      }
    }
  }

  lemma RemovalsAttempted(c: Cache, d: Cache, video: int, deletions: set<Key>, remove: map<int, set<Key>>,
                          deleted: set<Key>, cleared: set<int>)
    requires d.now >= c.now && Planned(c, d, video, deletions, remove)
    requires d == Cache(c.pages - deletions * deleted, WithoutAll(c.indexes, remove, cleared), c.unsafePages, d.now)
    ensures Attempted(c, d, video, deleted, cleared)
  {
  }

  lemma SameIndexes(c: Cache, d: Cache)
    requires c.indexes == d.indexes && c.now == d.now
    ensures forall v, p :: Lists(c, v, p) <==> Lists(d, v, p)
    ensures forall v :: IndexLives(c, v) <==> IndexLives(d, v)
  {
  }

  ghost predicate Stored(c: Cache, d: Cache, page: Key, videos: seq<int>, ttl: int, ok: bool) {
    (!ok && Pruned(c, d)) || exists m :: Pruned(c, m) && Filled(m, d, page, videos, ttl, ok)
  }

  // ---------------------------------------------------------------------------------------------
  // The invariant, and what an invalidation achieves
  // ---------------------------------------------------------------------------------------------

  lemma PassingKeeps(c: Cache, time: nat)
    requires Inv(c)
    ensures Inv(c.(now := c.now + time))
  {
    var d := c.(now := c.now + time);
    forall p, v | Served(d, p) && v in d.pages[p].videos ensures Lists(d, v, p) && Outlives(d, v, p) {
      assert Served(c, p) && Lists(c, v, p) && Outlives(c, v, p);
    }
  }

  lemma PruningKeeps(c: Cache, d: Cache)
    requires Inv(c) && Pruned(c, d)
    ensures Inv(d)
  {
    forall p, v | Served(d, p) && v in d.pages[p].videos ensures Lists(d, v, p) && Outlives(d, v, p) {
      assert Served(c, p) && Lists(c, v, p) && Outlives(c, v, p);
    }
  }

  lemma FillingKeeps(c: Cache, d: Cache, page: Key, videos: seq<int>, ttl: int, ok: bool)
    requires Inv(c) && Filled(c, d, page, videos, ttl, ok) && 0 < ttl <= LONGEST
    ensures Inv(d)
  {
    forall p, v | Served(d, p) && v in d.pages[p].videos ensures Lists(d, v, p) && Outlives(d, v, p) {
      if p != page {
        assert Served(c, p) && Lists(c, v, p) && Outlives(c, v, p);
        assert Lists(d, v, p);
      }
    }
  }

  /** No page the reader would serve contains the video. */
  ghost predicate Gone(c: Cache, video: int) {
    forall p | Served(c, p) :: video !in c.pages[p].videos
  }

  /** The DEL of every page that had to go was carried out. */
  ghost predicate AllDeleted(c: Cache, d: Cache, video: int, deleted: set<Key>) {
    forall p | Alive(c, d, p) && video in c.pages[p].videos :: p in deleted
  }

  /** Where a DEL was not carried out, none of the page's listings was removed either. */
  ghost predicate NoneStranded(c: Cache, d: Cache, video: int, deleted: set<Key>, cleared: set<int>) {
    forall p, v | Alive(c, d, p) && video in c.pages[p].videos && p !in deleted && v in c.pages[p].videos ::
      v !in cleared
  }

  /** An attempted invalidation leaves no served page with the video exactly when every such page had its DEL. */
  lemma GoneIffDeleted(c: Cache, d: Cache, video: int, deleted: set<Key>, cleared: set<int>)
    requires Inv(c) && Attempted(c, d, video, deleted, cleared)
    ensures Gone(d, video) <==> AllDeleted(c, d, video, deleted)
  {
    forall p | Served(c, p) && video in c.pages[p].videos ensures Doomed(c, video, p) {
      assert Lists(c, video, p);
    }
    forall p | Alive(c, d, p) && video in c.pages[p].videos && p !in deleted ensures !Gone(d, video) {
      assert Served(d, p);
    }
    forall p | Served(d, p) && video in d.pages[p].videos ensures Alive(c, d, p) && p !in deleted {
      assert Served(c, p);
    }
  }

  /** And it keeps every served page listed exactly when it strands none. */
  lemma InvalidatingKeepsIff(c: Cache, d: Cache, video: int, deleted: set<Key>, cleared: set<int>)
    requires Inv(c) && Attempted(c, d, video, deleted, cleared)
    ensures Inv(d) <==> NoneStranded(c, d, video, deleted, cleared)
  {
    forall p, v | Served(c, p) && v in c.pages[p].videos
      ensures Lists(c, v, p) && Outlives(c, v, p) && (v == video ==> Doomed(c, video, p))
    {
    }
    if NoneStranded(c, d, video, deleted, cleared) {
      forall p, v | Served(d, p) && v in d.pages[p].videos ensures Lists(d, v, p) && Outlives(d, v, p) {
        assert Served(c, p) && Alive(c, d, p) && Lists(c, v, p) && Outlives(c, v, p);
        assert Doomed(c, video, p) ==> p !in deleted && v !in cleared;
        assert v == video ==> Doomed(c, video, p);
      }
    }
    forall p, v | Alive(c, d, p) && video in c.pages[p].videos && p !in deleted &&
                  v in c.pages[p].videos && v in cleared
      ensures !Inv(d)
    {
      assert Doomed(c, video, p) && Served(d, p) && Lists(c, v, p);
      assert !Lists(d, v, p);
    }
  }

  lemma CompleteClears(c: Cache, d: Cache, video: int, deletions: set<Key>, remove: map<int, set<Key>>,
                       deleted: set<Key>, cleared: set<int>)
    requires Inv(c) && Attempted(c, d, video, deleted, cleared) && Planned(c, d, video, deletions, remove)
    requires deletions <= deleted
    ensures Gone(d, video) && Inv(d)
  {
    forall p | Alive(c, d, p) && video in c.pages[p].videos ensures p in deleted {
      assert Lists(c, video, p);
      assert Doomed(c, video, p);
    }
    GoneIffDeleted(c, d, video, deleted, cleared);
    InvalidatingKeepsIff(c, d, video, deleted, cleared);
  }

  datatype Operation =
    | Passing(time: nat)
    | Storing(page: Key, videos: seq<int>, ttl: int)
    | Invalidating(video: int, deleted: set<Key>, cleared: set<int>)

  ghost predicate Step(c: Cache, op: Operation, d: Cache) {
    match op
    case Passing(time) => d == c.(now := c.now + time)
    case Storing(page, videos, ttl) => 0 < ttl <= LONGEST && exists ok :: Stored(c, d, page, videos, ttl, ok)
    case Invalidating(video, deleted, cleared) =>
      Attempted(c, d, video, deleted, cleared) && NoneStranded(c, d, video, deleted, cleared)
  }

  lemma StepKeeps(c: Cache, op: Operation, d: Cache)
    requires Inv(c) && Step(c, op, d)
    ensures Inv(d)
  {
    hide Inv, Pruned, Filled, Attempted, NoneStranded;
    match op {
      case Passing(time) => PassingKeeps(c, time);
      case Storing(page, videos, ttl) =>
        var ok :| Stored(c, d, page, videos, ttl, ok);
        if !ok && Pruned(c, d) {
          PruningKeeps(c, d);
        } else {
          var m :| Pruned(c, m) && Filled(m, d, page, videos, ttl, ok);
          PruningKeeps(c, m);
          FillingKeeps(m, d, page, videos, ttl, ok);
        }
      case Invalidating(video, deleted, cleared) => InvalidatingKeepsIff(c, d, video, deleted, cleared);
    }
  }

  /** A history: each operation, with whatever failures that strand no page, leads from one state to the next. */
  ghost predicate History(states: seq<Cache>, ops: seq<Operation>) {
    |states| == |ops| + 1 && states[0] == Cache(map[], map[], {}, 0) &&
    forall i | 0 <= i < |ops| :: Step(states[i], ops[i], states[i + 1])
  }

  /** In every history every served page is listed under each of its videos by an index that outlives it. */
  lemma {:induction false} HistoryIsIndexed(states: seq<Cache>, ops: seq<Operation>, n: nat)
    requires History(states, ops) && n <= |ops|
    ensures Inv(states[n])
  {
    if n != 0 {
      HistoryIsIndexed(states, ops, n - 1);
      StepKeeps(states[n - 1], ops[n - 1], states[n]);
    }
  }

  lemma StepKeepsGone(c: Cache, op: Operation, d: Cache, video: int)
    requires Gone(c, video) && Step(c, op, d) && (op.Storing? ==> video !in op.videos)
    ensures Gone(d, video)
  {
    if op.Storing? {
      var ok :| Stored(c, d, op.page, op.videos, op.ttl, ok);
      if !ok && Pruned(c, d) {
        assert forall p :: Served(d, p) ==> Served(c, p);
      } else {
        var m :| Pruned(c, m) && Filled(m, d, op.page, op.videos, op.ttl, ok);
        assert forall p :: Served(m, p) ==> Served(c, p);
        assert forall p :: Served(d, p) ==> Served(m, p) || p == op.page;
      }
    } else {
      assert forall p :: Served(d, p) ==> Served(c, p);
    }
  }

  /**
   Main result. Once an invalidation has deleted every page it had to, whatever else of it failed, no page
   containing the video is served again until a page that contains it is stored.
   */
  lemma {:induction false} InvalidatedStaysGone(states: seq<Cache>, ops: seq<Operation>, i: nat, j: nat, video: int)
    requires History(states, ops) && i < j <= |ops|
    requires ops[i].Invalidating? && ops[i].video == video
    requires AllDeleted(states[i], states[i + 1], video, ops[i].deleted)
    requires forall k | i < k < j && ops[k].Storing? :: video !in ops[k].videos
    ensures Gone(states[j], video)
    decreases j
  {
    if j == i + 1 {
      HistoryIsIndexed(states, ops, i);
      GoneIffDeleted(states[i], states[j], video, ops[i].deleted, ops[i].cleared);
    } else {
      InvalidatedStaysGone(states, ops, i, j - 1, video);
      StepKeepsGone(states[j - 1], ops[j - 1], states[j], video);
    }
  }

  /**
   A page whose DEL failed while its listing under the video was removed is lost to invalidation: it is
   still served, and no later invalidation of the video, complete or not, can delete it.
   */
  lemma StrandedIsNotFoundAgain(c: Cache, d: Cache, e: Cache, video: int, page: Key,
                                deleted: set<Key>, cleared: set<int>,
                                deleted': set<Key>, cleared': set<int>)
    requires Inv(c) && Attempted(c, d, video, deleted, cleared) && Attempted(d, e, video, deleted', cleared')
    requires Alive(c, d, page) && video in c.pages[page].videos && page !in deleted && video in cleared
    ensures Served(d, page) && page in e.pages && e.pages[page] == c.pages[page]
  {
    assert Lists(c, video, page);
    assert Doomed(c, video, page);
    assert !Lists(d, video, page);
  }

  /** Such a transaction exists, and after it even a complete invalidation leaves the video on a served page. */
  lemma HalfAnInvalidationStrands()
    ensures exists c: Cache, d: Cache ::
              Inv(c) && Attempted(c, d, 1, {}, {1}) && Attempted(d, d, 1, {"page"}, {1}) && !Gone(d, 1)
  {
    var c := Cache(map["page" := Page([1], 10)], map[1 := Index(map["page" := 10], Some(10))], {}, 0);
    var d := c.(indexes := Without(c.indexes, 1, {"page"}));
    assert Inv(c);
    assert Attempted(c, d, 1, {}, {1}) && Attempted(d, d, 1, {"page"}, {1});
    assert Served(d, "page") && 1 in d.pages["page"].videos;
  }
}
