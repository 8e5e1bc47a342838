/**
 Assembling a feed page from its light entries (backend/internal/application/feed/service.go): cards and
 counts come from the cache where it has them and from the repository where it has not.
 Trimming of the texts is not modelled, so an item carries its card as stored.
 */
module FeedAssembly {
  import opened Options
  import opened Sets

  const ZERO_TIME: int := 0

  datatype PageItem = PageItem(video: int, published: int, hot: int)

  datatype Card = Card(video: int, author: int, nickname: string, title: string, published: int)

  datatype Stat = Stat(likes: int, comments: int, favorites: int)

  datatype ActionState = ActionState(liked: bool, favorited: bool)

  datatype FeedItem = FeedItem(card: Card, stat: Stat, published: int, liked: bool, favorited: bool, hot: int)

  /** A map from ids to pointers, which may be nil. */
  type Batch<T> = map<int, Option<T>>

  /** The repository's rows, and whether each of its three reads fails. */
  datatype Repository = Repository(
    cards: map<int, Card>,
    stats: map<int, Stat>,
    actions: map<int, ActionState>,
    cardsFail: bool,
    statsFail: bool,
    actionsFail: bool)

  /** What the cache holds, and which of its operations fail. */
  datatype Cache = Cache(
    cards: map<int, Card>,
    stats: map<int, Stat>,
    cardReadsFail: bool,
    statReadsFail: bool,
    cardWritesFail: bool,
    statWritesFail: bool)

  datatype Result<+T> = Ok(value: T) | LoadFailed

  // ---------------------------------------------------------------------------------------------
  // Without a cache
  // ---------------------------------------------------------------------------------------------

  predicate Has<T>(batch: Batch<T>, id: int) {
    id in batch && batch[id].Some?
  }

  /** A video without a statistics row counts zero. */
  function StatOf(stats: map<int, Stat>, id: int): Stat {
    if id in stats then stats[id] else Stat(0, 0, 0)
  }

  function ActionOf(repo: Repository, viewer: int, id: int): ActionState {
    if viewer > 0 && id in repo.actions then repo.actions[id] else ActionState(false, false)
  }

  function ItemFor(repo: Repository, viewer: int, p: PageItem): FeedItem
    requires p.video in repo.cards
  {
    var card := repo.cards[p.video];
    var action := ActionOf(repo, viewer, p.video);
    FeedItem(card, StatOf(repo.stats, p.video), if p.published == ZERO_TIME then card.published else p.published,
             action.liked, action.favorited, p.hot)
  }

  predicate IsShown(repo: Repository, p: Option<PageItem>) {
    p.Some? && p.value.video > 0 && p.value.video in repo.cards
  }

  /** The page as the repository alone determines it. */
  function Naive(repo: Repository, viewer: int, page: seq<Option<PageItem>>): seq<FeedItem> {
    if page == [] then []
    else (if IsShown(repo, page[0]) then [ItemFor(repo, viewer, page[0].value)] else []) +
         Naive(repo, viewer, page[1..])
  }

  lemma {:induction false} NaiveAppend(repo: Repository, viewer: int, page: seq<Option<PageItem>>, p: Option<PageItem>)
    ensures Naive(repo, viewer, page + [p]) ==
            Naive(repo, viewer, page) + if IsShown(repo, p) then [ItemFor(repo, viewer, p.value)] else []
  {
    if page != [] {
      assert (page + [p])[1..] == page[1..] + [p];
      NaiveAppend(repo, viewer, page[1..], p);
    }
  }

  /**
   What is shown of one entry: nothing unless its id is positive and its card exists. Counts are the stored
   ones or zero, the viewer's own like and favourite need a viewer, and a missing time is the card's.
   */
  lemma ShownOf(repo: Repository, viewer: int, p: PageItem)
    ensures Naive(repo, viewer, [None]) == []
    ensures var items := Naive(repo, viewer, [Some(p)]);
            && |items| == (if p.video > 0 && p.video in repo.cards then 1 else 0)
            && forall x | x in items ::
                 && x.card == repo.cards[p.video] && x.hot == p.hot
                 && x.published == (if p.published != 0 then p.published else x.card.published)
                 && (p.video in repo.stats ==> x.stat == repo.stats[p.video])
                 && (p.video !in repo.stats ==> x.stat == Stat(0, 0, 0))
                 && (x.liked <==> viewer > 0 && p.video in repo.actions && repo.actions[p.video].liked)
                 && (x.favorited <==> viewer > 0 && p.video in repo.actions && repo.actions[p.video].favorited)
  {
    var nothing: seq<Option<PageItem>> := [None];
    assert [Some(p)][1..] == [] && nothing[1..] == [];
  }

  /** What the cache holds equals what the repository has; a cached count may stand for a missing row. */
  ghost predicate Consistent(cache: Cache, repo: Repository) {
    && (forall id | id in cache.cards :: id in repo.cards && cache.cards[id] == repo.cards[id])
    && (forall id | id in cache.stats :: cache.stats[id] == StatOf(repo.stats, id))
  }

  // ---------------------------------------------------------------------------------------------
  // Helpers
  // ---------------------------------------------------------------------------------------------

  predicate Wanted(page: seq<Option<PageItem>>, id: int) {
    id > 0 && exists p | p in page :: p.Some? && p.value.video == id
  }

  /** The positive ids of the page, each once. */
  method FeedPageVideoIds(page: seq<Option<PageItem>>) returns (ids: seq<int>)
    ensures forall id :: id in ids <==> Wanted(page, id)
    ensures forall i, j | 0 <= i < j < |ids| :: ids[i] != ids[j]
  {
    ids := [];
    var seen: set<int> := {};
    for i := 0 to |page|
      invariant forall id :: id in ids <==> Wanted(page[..i], id)
      invariant forall id :: id in seen <==> id in ids
      invariant forall k, j | 0 <= k < j < |ids| :: ids[k] != ids[j]
    {
      WantedAppend(page[..i], page[i]);
      assert page[..i + 1] == page[..i] + [page[i]];
      var p := page[i];
      if p.Some? && p.value.video > 0 && p.value.video !in seen {
        seen := seen + {p.value.video};
        ids := ids + [p.value.video];
      }
    }
    assert page[..|page|] == page;
  }

  lemma WantedAppend(page: seq<Option<PageItem>>, p: Option<PageItem>)
    ensures forall id :: Wanted(page + [p], id) <==> Wanted(page, id) || (p.Some? && p.value.video == id && id > 0)
  {
    forall id ensures Wanted(page + [p], id) <==> Wanted(page, id) || (p.Some? && p.value.video == id && id > 0) {
      assert forall q :: q in page + [p] <==> q in page || q == p;
    }
  }

  method MissingIds<T>(ids: seq<int>, found: Batch<T>) returns (missing: seq<int>)
    ensures forall id :: id in missing <==> id in ids && !Has(found, id)
  {
    missing := [];
    for i := 0 to |ids|
      invariant forall id :: id in missing <==> id in ids[..i] && !Has(found, id)
    {
      assert ids[..i + 1] == ids[..i] + [ids[i]];
      if !Has(found, ids[i]) {
        missing := missing + [ids[i]];
      }
    }
    assert ids[..|ids|] == ids;
  }

  /** mergeCards and mergeStats: what can be found afterwards. */
  method Merge<T>(target: Batch<T>, source: Batch<T>) returns (r: Batch<T>)
    ensures forall id :: Has(r, id) <==> Has(target, id) || Has(source, id)
    ensures forall id | Has(source, id) :: Has(r, id) && r[id] == source[id]
    ensures forall id | Has(target, id) && !Has(source, id) :: Has(r, id) && r[id] == target[id]
  {
    r := target;
    var ids := source.Keys;
    while ids != {}
      invariant ids <= source.Keys
      invariant forall id :: Has(r, id) <==> Has(target, id) || (Has(source, id) && id !in ids)
      invariant forall id | Has(source, id) && id !in ids :: Has(r, id) && r[id] == source[id]
      invariant forall id | Has(target, id) && !Has(source, id) :: Has(r, id) && r[id] == target[id]
      decreases |ids|
    {
      ghost var some := AnyOf(ids);
      var id :| id in ids;
      ids := ids - {id};
      if source[id].Some? {
        r := r[id := source[id]];
      }
    }
  }

  function Cards(rows: map<int, Card>, ids: seq<int>): Batch<Card> {
    map id | id in ids && id in rows :: Some(rows[id])
  }

  function CachedStats(rows: map<int, Stat>, ids: seq<int>): Batch<Stat> {
    map id | id in ids && id in rows :: Some(rows[id])
  }

  /** BatchGetFeedStats answers zeros for missing rows. */
  function Stats(rows: map<int, Stat>, ids: seq<int>): Batch<Stat> {
    map id | id in ids :: Some(StatOf(rows, id))
  }

  // ---------------------------------------------------------------------------------------------
  // Assembling
  // ---------------------------------------------------------------------------------------------

  /** The cards and counts at hand are the repository's, for every id wanted. */
  ghost predicate Complete(repo: Repository, cards: Batch<Card>, stats: Batch<Stat>, page: seq<Option<PageItem>>) {
    && (forall id | Has(cards, id) :: id > 0 && id in repo.cards && cards[id] == Some(repo.cards[id]))
    && (forall id | Wanted(page, id) && id in repo.cards :: Has(cards, id))
    && (forall id | Wanted(page, id) :: Has(stats, id) && stats[id] == Some(StatOf(repo.stats, id)))
  }

  method BuildItems(ghost repo: Repository, cards: Batch<Card>, stats: Batch<Stat>, actions: map<int, ActionState>,
                    viewer: int, page: seq<Option<PageItem>>)
    returns (items: seq<FeedItem>)
    requires Complete(repo, cards, stats, page)
    requires forall id | Wanted(page, id) ::
               (if id in actions then actions[id] else ActionState(false, false)) == ActionOf(repo, viewer, id)
    ensures items == Naive(repo, viewer, page)
  {
    items := [];
    for i := 0 to |page|
      invariant items == Naive(repo, viewer, page[..i])
    {
      NaiveAppend(repo, viewer, page[..i], page[i]);
      assert page[..i + 1] == page[..i] + [page[i]];
      if page[i].Some? {
        var p := page[i].value;
        assert page[i] in page && (p.video > 0 ==> Wanted(page, p.video));
        if Has(cards, p.video) {
          var card := cards[p.video].value;
          var stat := if Has(stats, p.video) then stats[p.video].value else Stat(0, 0, 0);
          var published := if p.published == ZERO_TIME then card.published else p.published;
          var action := if p.video in actions then actions[p.video] else ActionState(false, false);
          items := items + [FeedItem(card, stat, published, action.liked, action.favorited, p.hot)];
        }
      }
    }
    assert page[..|page|] == page;
  }

  predicate CardCached(cache: Option<Cache>, id: int) {
    cache.Some? && !cache.value.cardReadsFail && id in cache.value.cards
  }

  predicate StatCached(cache: Option<Cache>, id: int) {
    cache.Some? && !cache.value.statReadsFail && id in cache.value.stats
  }

  ghost predicate NeedsCards(cache: Option<Cache>, ids: seq<int>) {
    exists id | id in ids :: !CardCached(cache, id)
  }

  ghost predicate NeedsStats(cache: Option<Cache>, ids: seq<int>) {
    exists id | id in ids :: !StatCached(cache, id)
  }

  ghost predicate ConsistentIfAny(cache: Option<Cache>, repo: Repository) {
    cache.Some? ==> Consistent(cache.value, repo)
  }

  /** Cards from the cache, the missing ones from the repository and then into the cache. */
  method LoadCards(repo: Repository, cache: Option<Cache>, ids: seq<int>)
    returns (r: Result<Batch<Card>>, after: Option<Cache>)
    requires ConsistentIfAny(cache, repo)
    ensures ConsistentIfAny(after, repo) && (after.Some? <==> cache.Some?)
    ensures forall id :: StatCached(after, id) <==> StatCached(cache, id)
    ensures r == LoadFailed <==> repo.cardsFail && NeedsCards(cache, ids)
    ensures r.Ok? ==> forall id :: Has(r.value, id) <==> id in ids && id in repo.cards
    ensures r.Ok? ==> forall id | Has(r.value, id) :: r.value[id].value == repo.cards[id]
  {
    after := cache;
    var cards: Batch<Card> := map[];
    if cache.Some? && !cache.value.cardReadsFail {
      cards := Cards(cache.value.cards, ids);
    }
    assert forall id :: Has(cards, id) <==> id in ids && CardCached(cache, id);
    var missing := MissingIds(ids, cards);
    if |missing| > 0 {
      assert missing[0] in missing && !CardCached(cache, missing[0]);
      if repo.cardsFail {
        return LoadFailed, after;
      }
      cards := Merge(cards, Cards(repo.cards, missing));
      after := WithCards(repo, after, missing);
    }
    r := Ok(cards);
  }

  method LoadStats(repo: Repository, cache: Option<Cache>, ids: seq<int>)
    returns (r: Result<Batch<Stat>>, after: Option<Cache>)
    requires ConsistentIfAny(cache, repo)
    ensures ConsistentIfAny(after, repo) && (after.Some? <==> cache.Some?)
    ensures r == LoadFailed <==> repo.statsFail && NeedsStats(cache, ids)
    ensures r.Ok? ==> forall id :: Has(r.value, id) <==> id in ids
    ensures r.Ok? ==> forall id | Has(r.value, id) :: r.value[id].value == StatOf(repo.stats, id)
  {
    after := cache;
    var stats: Batch<Stat> := map[];
    if cache.Some? && !cache.value.statReadsFail {
      stats := CachedStats(cache.value.stats, ids);
    }
    assert forall id :: Has(stats, id) <==> id in ids && StatCached(cache, id);
    var missing := MissingIds(ids, stats);
    if |missing| > 0 {
      assert missing[0] in missing && !StatCached(cache, missing[0]);
      if repo.statsFail {
        return LoadFailed, after;
      }
      stats := Merge(stats, Stats(repo.stats, missing));
      after := WithStats(repo, after, missing);
    }
    r := Ok(stats);
  }

  /** A read of the repository that the page needs fails. */
  ghost predicate ReadFails(repo: Repository, cache: Option<Cache>, viewer: int, page: seq<Option<PageItem>>) {
    || (repo.cardsFail && exists id :: Wanted(page, id) && !CardCached(cache, id))
    || (repo.statsFail && exists id :: Wanted(page, id) && !StatCached(cache, id))
    || (repo.actionsFail && viewer > 0 && exists id :: Wanted(page, id))
  }

  /**
   Whatever consistent part of the repository the cache holds, the answer is the naive page, unless a
   needed read of the repository fails; and the cache is still consistent afterwards.
   */
  method AssembleFeedItems(repo: Repository, cache: Option<Cache>, viewer: int, page: seq<Option<PageItem>>)
    returns (r: Result<seq<FeedItem>>, after: Option<Cache>)
    requires ConsistentIfAny(cache, repo)
    ensures r == if ReadFails(repo, cache, viewer, page) then LoadFailed else Ok(Naive(repo, viewer, page))
    ensures ConsistentIfAny(after, repo) && (after.Some? <==> cache.Some?)
  {
    hide Consistent, CardCached, StatCached;
    after := cache;
    var ids := FeedPageVideoIds(page);
    if |ids| == 0 {
      NothingWanted(repo, viewer, page);
      return Ok([]), after;
    }
    assert ids[0] in ids && Wanted(page, ids[0]);
    var cards, withCards := LoadCards(repo, cache, ids);
    after := withCards;
    if cards.LoadFailed? {
      return LoadFailed, after;
    }
    var stats, withStats := LoadStats(repo, after, ids);
    after := withStats;
    if stats.LoadFailed? {
      return LoadFailed, after;
    }
    var actions: map<int, ActionState> := map[];
    if viewer > 0 {
      if repo.actionsFail {
        return LoadFailed, after;
      }
      actions := map id | id in ids :: if id in repo.actions then repo.actions[id] else ActionState(false, false);
    }
    var items := BuildItems(repo, cards.value, stats.value, actions, viewer, page);
    r := Ok(items);
  }

  lemma {:induction false} NothingWanted(repo: Repository, viewer: int, page: seq<Option<PageItem>>)
    requires forall id :: !Wanted(page, id)
    ensures Naive(repo, viewer, page) == []
  {
    if page != [] {
      assert page[0] in page;
      forall id ensures !Wanted(page[1..], id) {
        assert forall p :: p in page[1..] ==> p in page;
        assert !Wanted(page, id);
      }
      if IsShown(repo, page[0]) {
        assert Wanted(page, page[0].value.video);
      }
      NothingWanted(repo, viewer, page[1..]);
    }
  }

  /** SetCards, best effort. */
  method WithCards(repo: Repository, cache: Option<Cache>, ids: seq<int>) returns (after: Option<Cache>)
    requires cache.Some? ==> Consistent(cache.value, repo)
    ensures after.Some? <==> cache.Some?
    ensures after.Some? ==> Consistent(after.value, repo) && after.value.stats == cache.value.stats
    ensures after.Some? ==> after.value.statReadsFail == cache.value.statReadsFail
  {
    after := cache;
    if cache.Some? && !cache.value.cardWritesFail {
      after := Some(cache.value.(cards := cache.value.cards +
                                map id | id in ids && id in repo.cards :: repo.cards[id]));
    }
  }

  /** SetStats, best effort; a missing row is cached as zeros. */
  method WithStats(repo: Repository, cache: Option<Cache>, ids: seq<int>) returns (after: Option<Cache>)
    requires cache.Some? ==> Consistent(cache.value, repo)
    ensures after.Some? <==> cache.Some?
    ensures after.Some? ==> Consistent(after.value, repo)
  {
    after := cache;
    if cache.Some? && !cache.value.statWritesFail {
      after := Some(cache.value.(stats := cache.value.stats + map id | id in ids :: StatOf(repo.stats, id)));
    }
  }

  /**
   A cache only ever helps: a page that fails with it fails without it. And it saves a page exactly when the
   viewer's actions can be read and it holds everything that cannot.
   */
  lemma CacheOnlyHelps(repo: Repository, cache: Cache, viewer: int, page: seq<Option<PageItem>>)
    ensures ReadFails(repo, Some(cache), viewer, page) ==> ReadFails(repo, None, viewer, page)
    ensures ReadFails(repo, None, viewer, page) && !ReadFails(repo, Some(cache), viewer, page) <==>
            && (exists id :: Wanted(page, id)) && (repo.cardsFail || repo.statsFail)
            && !(repo.actionsFail && viewer > 0)
            && (repo.cardsFail ==> forall id | Wanted(page, id) :: CardCached(Some(cache), id))
            && (repo.statsFail ==> forall id | Wanted(page, id) :: StatCached(Some(cache), id))
  {
    hide Wanted;
    if id :| Wanted(page, id) {
      assert !CardCached(None, id) && !StatCached(None, id);
    }
  }
}
