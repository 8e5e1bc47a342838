/**
 The push/pull following feed (backend/internal/infra/cache/feed_cache.go): capped inboxes and author
 outboxes as Redis sorted sets, and the merge that lists a page from all of them.
 Times are in nanoseconds since 1970; the key's expiry is not modelled.
 */
module FollowingIndex {
  import opened Options
  import opened RankedSets
  import opened Sets

  const SECOND: int := 1_000_000_000
  const IDS_PER_SECOND: int := 1_000_000
  const INBOX_LENGTH: nat := 1000
  const OUTBOX_LENGTH: nat := 500

  /** The zero time, the first instant of the year 1. */
  const ZERO_TIME: int := -62_135_596_800 * SECOND

  /** A member of an index: its text is made of exactly these three values. */
  datatype Item = Item(video: int, author: int, published: int)

  datatype Cursor = Cursor(video: int, published: int)

  /** The remainder that truncates towards zero. */
  function Rem(n: int, m: int): int
    requires m > 0
  {
    if n >= 0 then n % m else -(-n % m)
  }

  function ScoreOf(published: int, video: int): int {
    published / SECOND * IDS_PER_SECOND + Rem(video, IDS_PER_SECOND)
  }

  function Score(x: Item): int {
    ScoreOf(x.published, x.video)
  }

  // ---------------------------------------------------------------------------------------------
  // Score order and timeline order
  // ---------------------------------------------------------------------------------------------

  /** The timeline: newest first, then by id; the author only separates members of one video. */
  predicate Newer(x: Item, y: Item) {
    || x.published > y.published
    || (x.published == y.published && x.video > y.video)
    || (x.published == y.published && x.video == y.video && x.author > y.author)
  }

  lemma NewerIsStrictTotal()
    ensures StrictTotal(Newer)
  {
  }

  /** The comparison a page is sorted with: the timeline, for members of different videos. */
  predicate Ahead(x: Item, y: Item) {
    if x.published == y.published then x.video > y.video else x.published > y.published
  }

  /**
   For any times and any positive ids, the scores of two members agree with the timeline exactly when
   their seconds differ or the last six digits of their ids compare as the timeline does.
   */
  lemma ScoreAgreesIff(x: Item, y: Item)
    requires x.video > 0 && y.video > 0
    ensures (Score(x) > Score(y) <==> Ahead(x, y)) <==>
            x.published / 1_000_000_000 != y.published / 1_000_000_000 ||
            (x.video % 1_000_000 > y.video % 1_000_000 <==> Ahead(x, y))
  {
    var a, b := x.published / SECOND, y.published / SECOND;
    if a > b {
      assert (a - b) * IDS_PER_SECOND >= IDS_PER_SECOND;
    } else if b > a {
      assert (b - a) * IDS_PER_SECOND >= IDS_PER_SECOND;
    }
  }

  predicate Regular(published: int, video: int) {
    published % 1_000_000_000 == 0 && 0 < video < 1_000_000
  }

  /** For whole seconds and ids below a million the score is the lexicographic order on (time, id). */
  lemma ScoreIsLexicographic(x: Item, y: Item)
    requires Regular(x.published, x.video) && Regular(y.published, y.video)
    ensures Score(x) > Score(y) <==> Ahead(x, y)
  {
    ScoreAgreesIff(x, y);
    assert x.published == x.published / SECOND * SECOND && y.published == y.published / SECOND * SECOND;
  }

  /** The member ahead has the lower score exactly when both are of one second and its last six digits are lower. */
  lemma InvertsIff(x: Item, y: Item)
    requires x.video > 0 && y.video > 0 && Ahead(x, y)
    ensures Score(x) < Score(y) <==>
            x.published / 1_000_000_000 == y.published / 1_000_000_000 && x.video % 1_000_000 < y.video % 1_000_000
  {
    var a, b := x.published / SECOND, y.published / SECOND;
    if a > b {
      assert (a - b) * IDS_PER_SECOND >= IDS_PER_SECOND;
    } else {
      assert b <= a;
    }
  }

  /** That happens for ids below a million too: within a second the score forgets the fraction. */
  lemma FractionsInvert()
    ensures exists x: Item, y: Item :: 0 < x.video < y.video < 1_000_000 && Newer(x, y) && Score(x) < Score(y)
  {
    var x, y := Item(1, 1, 1), Item(2, 1, 0);
    assert Newer(x, y) && Score(x) < Score(y);
  }

  /**
   How a sorted set orders its members: by score, and equal scores by the members' text. Any strict total
   order that starts with the score will do.
   */
  ghost predicate RedisOrder(above: (Item, Item) -> bool) {
    StrictTotal(above) && forall x, y :: Score(x) > Score(y) ==> above(x, y)
  }

  // ---------------------------------------------------------------------------------------------
  // The indexes
  // ---------------------------------------------------------------------------------------------

  function Members(index: map<int, set<Item>>, key: int): set<Item> {
    if key in index then index[key] else {}
  }

  predicate Published(video: int, published: int) {
    video > 0 && published != -62_135_596_800_000_000_000
  }

  predicate BelowCursor(x: Item, cursor: Option<Cursor>) {
    cursor.Some? ==> Score(x) < ScoreOf(cursor.value.published, cursor.value.video)
  }

  function Below(s: set<Item>, cursor: Option<Cursor>): set<Item> {
    set x | x in s && BelowCursor(x, cursor)
  }

  ghost predicate Descending(r: seq<Item>, above: (Item, Item) -> bool) {
    forall i, j :: 0 <= i < j < |r| ==> above(r[i], r[j])
  }

  function Elements(r: seq<Item>): set<Item> {
    set x | x in r
  }

  class Index {
    const above: (Item, Item) -> bool
    var inboxes: map<int, set<Item>>
    var outboxes: map<int, set<Item>>

    /** Members are well formed, and an outbox holds its own author's videos. */
    ghost predicate Valid()
      reads this
    {
      && RedisOrder(above)
      && (forall u, x | u in inboxes && x in inboxes[u] :: Published(x.video, x.published))
      && (forall a, x | a in outboxes && x in outboxes[a] :: Published(x.video, x.published) && x.author == a)
    }

    constructor (above: (Item, Item) -> bool)
      requires RedisOrder(above)
      ensures Valid() && inboxes == map[] && outboxes == map[] && this.above == above
    {
      this.above := above;
      inboxes, outboxes := map[], map[];
    }

    /** ZREMRANGEBYRANK from rank 0 to -(cap + 1). */
    method Capped(s: set<Item>, cap: nat) returns (r: set<Item>)
      requires Valid()
      ensures r == Top(s, above, cap)
    {
      r := s;
      TopSize(s, above, cap);
      while |r| > cap
        invariant Top(r, above, cap) == Top(s, above, cap) && r <= s
        decreases |r|
      {
        LowestExists(r, above);
        ghost var m :| IsLowest(r, above, m);
        var low :| low in r && forall y | y in r :: y == low || above(y, low);
        assert Top(r, above, cap) <= r - {low} by {
          assert Higher(r, above, low) == r - {low};
        }
        TopOfPart(r - {low}, r, above, cap);
        r := r - {low};
      }
      TopSize(r, above, cap);
      SameSize(Top(r, above, cap), r);
    }

    method AddToInbox(user: int, x: Item, cap: nat)
      requires Valid() && Published(x.video, x.published)
      modifies this`inboxes
      ensures Valid()
      ensures Members(inboxes, user) == Top(Members(old(inboxes), user) + {x}, above, cap)
      ensures forall u | u != user :: Members(inboxes, u) == Members(old(inboxes), u)
    {
      var s := if user in inboxes then inboxes[user] else {};
      var r := Capped(s + {x}, cap);
      inboxes := inboxes[user := r];
    }

    /** What an inbox holds once the users listed so far have been dealt with. */
    ghost function InboxAfter(before: map<int, set<Item>>, users: seq<int>, u: int, x: Item, cap: nat): set<Item> {
      if u > 0 && u in users then Top(Members(before, u) + {x}, above, cap) else Members(before, u)
    }

    method AddInboxItems(author: int, users: seq<int>, video: int, published: int, maxLen: int)
      requires Valid()
      modifies this`inboxes
      ensures Valid()
      ensures author <= 0 || !Published(video, published) ==> inboxes == old(inboxes)
      ensures author > 0 && Published(video, published) ==>
                forall u :: Members(inboxes, u) ==
                            InboxAfter(old(inboxes), users, u, Item(video, author, published),
                                       if maxLen <= 0 then 1000 else maxLen)
    {
      if author <= 0 || video <= 0 || published == ZERO_TIME || |users| == 0 {
        return;
      }
      var cap := if maxLen <= 0 then INBOX_LENGTH else maxLen;
      var x := Item(video, author, published);
      for i := 0 to |users|
        invariant Valid()
        invariant forall u :: Members(inboxes, u) == InboxAfter(old(inboxes), users[..i], u, x, cap)
      {
        hide Members;
        assert users[..i + 1] == users[..i] + [users[i]];
        if users[i] > 0 {
          AddedAgain(Members(old(inboxes), users[i]), above, cap, x);
          AddToInbox(users[i], x, cap);
        }
      }
      assert users[..|users|] == users;
    }

    method AddAuthorOutboxItem(author: int, video: int, published: int, maxLen: int)
      requires Valid()
      modifies this`outboxes
      ensures Valid()
      ensures author <= 0 || !Published(video, published) ==> outboxes == old(outboxes)
      ensures author > 0 && Published(video, published) ==>
                outboxes == old(outboxes)[author :=
                  Top(Members(old(outboxes), author) + {Item(video, author, published)}, above,
                      if maxLen <= 0 then 500 else maxLen)]
    {
      if author <= 0 || video <= 0 || published == ZERO_TIME {
        return;
      }
      var cap := if maxLen <= 0 then OUTBOX_LENGTH else maxLen;
      var s := if author in outboxes then outboxes[author] else {};
      var r := Capped(s + {Item(video, author, published)}, cap);
      outboxes := outboxes[author := r];
    }

    method Highest(rest: set<Item>) returns (top: Item)
      requires Valid() && rest != {}
      ensures top in rest && forall y | y in rest :: y == top || above(top, y)
    {
      HighestExists(rest, above);
      ghost var m :| IsHighest(rest, above, m);
      top :| top in rest && forall y | y in rest :: y == top || above(top, y);
    }

    /** ZREVRANGEBYSCORE: the highest members below the bound, at most `limit`, highest first. */
    method RevRange(s: set<Item>, cursor: Option<Cursor>, limit: nat) returns (r: seq<Item>)
      requires Valid()
      ensures Elements(r) == Top(Below(s, cursor), above, limit)
    {
      var all := set x | x in s && (cursor.Some? ==> Score(x) < ScoreOf(cursor.value.published, cursor.value.video));
      assert all == Below(s, cursor);
      hide StrictTotal, Top, Higher, Below, Score, ScoreOf;
      var rest := all;
      r := [];
      while |r| < limit && rest != {}
        invariant rest <= all && Elements(r) == all - rest && |all| == |r| + |rest| && |r| <= limit
        invariant forall x, y | x in r && y in rest :: above(x, y)
        decreases |rest|
      {
        var top := Highest(rest);
        rest := rest - {top};
        assert Elements(r + [top]) == Elements(r) + {top};
        r := r + [top];
      }
      SameCount(all, rest, |r|);
      TakenIsTop(all, rest, above, limit);
    }

    /** The viewer's inbox and the outboxes of the authors followed. */
    method Keys(viewer: int, authors: seq<int>) returns (keys: seq<set<Item>>)
      ensures keys == Sources(viewer, authors)
    {
      hide Members;
      keys := [Members(inboxes, viewer)];
      for i := 0 to |authors|
        invariant keys == [Members(inboxes, viewer)] + Outboxes(outboxes, authors[..i])
      {
        OutboxesAppend(outboxes, authors[..i], authors[i]);
        assert authors[..i + 1] == authors[..i] + [authors[i]];
        if authors[i] > 0 {
          keys := keys + [Members(outboxes, authors[i])];
        }
      }
      assert authors[..|authors|] == authors;
    }

    /** The replies for all of them, and whether any exists. */
    method ReadAll(keys: seq<set<Item>>, cursor: Option<Cursor>, limit: nat)
      returns (ranges: seq<seq<Item>>, hasIndex: bool)
      requires Valid()
      ensures |ranges| == |keys|
      ensures forall j | 0 <= j < |keys| :: Elements(ranges[j]) == Top(Below(keys[j], cursor), above, limit)
      ensures hasIndex <==> Union(keys) != {}
    {
      hide Top, Below, Elements, StrictTotal;
      ranges, hasIndex := [], false;
      for i := 0 to |keys|
        invariant |ranges| == i
        invariant forall j | 0 <= j < i :: Elements(ranges[j]) == Top(Below(keys[j], cursor), above, limit)
        invariant hasIndex <==> exists j :: 0 <= j < i && keys[j] != {}
      {
        hasIndex := hasIndex || keys[i] != {};
        var r := RevRange(keys[i], cursor, limit);
        ranges := ranges + [r];
      }
      UnionIsEmpty(keys);
    }

    function Sources(viewer: int, authors: seq<int>): seq<set<Item>>
      reads this
    {
      [Members(inboxes, viewer)] + Outboxes(outboxes, authors)
    }

    method ListFollowingIndexPage(viewer: int, authors: seq<int>, cursor: Option<Cursor>, limit: int)
      returns (items: seq<Item>, hasIndex: bool)
      requires Valid()
      ensures viewer <= 0 || limit <= 0 ==> items == [] && !hasIndex
      ensures viewer > 0 && limit > 0 ==> (hasIndex <==> Union(Sources(viewer, authors)) != {})
      ensures !hasIndex ==> items == []
      ensures hasIndex ==> |items| <= limit && Descending(items, Newer) && DistinctVideos(items)
      ensures hasIndex ==> Elements(items) <= Below(Union(Sources(viewer, authors)), cursor)
      ensures hasIndex && Faithful(Union(Sources(viewer, authors)), cursor) ==>
                IsPage(items, Union(Sources(viewer, authors)), cursor, limit)
    {
      hide Top, Below, Faithful, IsPage, Sorted, StrictTotal;
      if viewer <= 0 || limit <= 0 {
        return [], false;
      }
      var keys := Keys(viewer, authors);
      var ranges;
      ranges, hasIndex := ReadAll(keys, cursor, limit);
      if !hasIndex {
        return [], false;
      }
      EverythingIsKept(inboxes, outboxes, viewer, authors, ranges, above, cursor, limit);
      items := Collect(ranges, authors);
      if Faithful(Union(keys), cursor) {
        PageIsNaive(keys, ranges, items, above, cursor, limit);
      }
      CollectedBelow(keys, ranges, items, above, cursor, limit);
      SortedIsDescending(items);
      items := Sorted(items);
      if |items| > limit {
        items := items[..limit];
      }
    }
  }

  lemma SameSize(a: set<Item>, b: set<Item>)
    requires a <= b && |a| == |b|
    ensures a == b
  {
    assert b == a + (b - a);
  }

  /** A user listed twice gets the item once. */
  lemma AddedAgain(s: set<Item>, above: (Item, Item) -> bool, cap: nat, x: Item)
    requires StrictTotal(above)
    ensures Top(Top(s + {x}, above, cap) + {x}, above, cap) == Top(s + {x}, above, cap)
  {
    TopAfterAdd(s + {x}, above, cap, x);
    assert s + {x} + {x} == s + {x};
  }

  // ---------------------------------------------------------------------------------------------
  // Capped indexes hold the highest of everything ever added
  // ---------------------------------------------------------------------------------------------

  /** The index after adding members one by one, cut each time. */
  ghost function AddedAll(s: set<Item>, added: seq<Item>, above: (Item, Item) -> bool, cap: nat): set<Item>
    decreases |added|
  {
    if added == [] then s
    else AddedAll(Top(s + {added[0]}, above, cap), added[1..], above, cap)
  }

  /** After any sequence of additions a capped index is exactly the `cap` highest of all that was added. */
  lemma {:induction false} CappedIndexIsTop(everything: set<Item>, added: seq<Item>,
                                          above: (Item, Item) -> bool, cap: nat)
    requires StrictTotal(above)
    ensures AddedAll(Top(everything, above, cap), added, above, cap) == Top(everything + Elements(added), above, cap)
    decreases |added|
  {
    if added == [] {
      assert everything + Elements(added) == everything;
    } else {
      TopAfterAdd(everything, above, cap, added[0]);
      CappedIndexIsTop(everything + {added[0]}, added[1..], above, cap);
      assert everything + {added[0]} + Elements(added[1..]) == everything + Elements(added);
    }
  }

  // ---------------------------------------------------------------------------------------------
  // The page
  // ---------------------------------------------------------------------------------------------

  function Outboxes(outboxes: map<int, set<Item>>, authors: seq<int>): seq<set<Item>> {
    if authors == [] then []
    else (if authors[0] > 0 then [Members(outboxes, authors[0])] else []) + Outboxes(outboxes, authors[1..])
  }

  lemma {:induction false} OutboxesAppend(outboxes: map<int, set<Item>>, authors: seq<int>, a: int)
    ensures Outboxes(outboxes, authors + [a]) ==
            Outboxes(outboxes, authors) + if a > 0 then [Members(outboxes, a)] else []
  {
    if authors != [] {
      assert (authors + [a])[1..] == authors[1..] + [a];
      OutboxesAppend(outboxes, authors[1..], a);
    }
  }

  function Union(sources: seq<set<Item>>): set<Item> {
    set i, x | 0 <= i < |sources| && x in sources[i] :: x
  }

  lemma UnionIsEmpty(sources: seq<set<Item>>)
    ensures Union(sources) != {} <==> exists i :: 0 <= i < |sources| && sources[i] != {}
  {
    if i :| 0 <= i < |sources| && sources[i] != {} {
      var x :| x in sources[i];
      assert x in Union(sources);
    }
  }

  ghost predicate OnePerVideo(s: set<Item>) {
    forall x, y | x in s && y in s && x.video == y.video :: x == y
  }

  /** The scores compare as the timeline does, and every video has one member. */
  ghost predicate FollowsTimeline(s: set<Item>) {
    && (forall x, y | x in s && y in s :: Score(x) > Score(y) <==> Ahead(x, y))
    && OnePerVideo(s)
  }

  /** The scores below the cursor's are those of the members that come after it. */
  ghost predicate CursorFollows(s: set<Item>, cursor: Option<Cursor>) {
    forall x | x in s :: BelowCursor(x, cursor) <==> AfterCursor(x, cursor)
  }

  ghost predicate Faithful(s: set<Item>, cursor: Option<Cursor>) {
    FollowsTimeline(s) && CursorFollows(s, cursor)
  }

  predicate AfterCursor(x: Item, cursor: Option<Cursor>) {
    || cursor.None?
    || x.published < cursor.value.published
    || (x.published == cursor.value.published && x.video < cursor.value.video)
  }

  function After(s: set<Item>, cursor: Option<Cursor>): set<Item> {
    set x | x in s && AfterCursor(x, cursor)
  }

  /** The naive page: the first `limit` members after the cursor, in timeline order. */
  ghost predicate IsPage(items: seq<Item>, s: set<Item>, cursor: Option<Cursor>, limit: nat) {
    Descending(items, Newer) && Elements(items) == Top(After(s, cursor), Newer, limit)
  }

  lemma SameCount(all: set<Item>, rest: set<Item>, n: nat)
    requires rest <= all && |all| == n + |rest|
    ensures |all - rest| == n
  {
    assert all == rest + (all - rest);
  }

  /** A part that lies above the rest and is either everything or `limit` long is the `limit` highest. */
  lemma TakenIsTop(all: set<Item>, rest: set<Item>, above: (Item, Item) -> bool, limit: nat)
    requires StrictTotal(above) && rest <= all && forall x, y | x in all - rest && y in rest :: above(x, y)
    requires |all - rest| == limit || (rest == {} && |all| <= limit)
    ensures all - rest == Top(all, above, limit)
  {
    var taken := all - rest;
    TopSize(all, above, limit);
    forall x | x in taken ensures |Higher(all, above, x)| < limit {
      assert Higher(all, above, x) <= taken - {x};
      SubsetSize(Higher(all, above, x), taken - {x});
      if rest == {} { assert taken == all; }
    }
    assert taken <= Top(all, above, limit);
    if rest == {} { assert taken == all; } else { SubsetSize(taken, all); }
    SameSize(taken, Top(all, above, limit));
  }

  predicate Kept(source: nat, x: Item, authors: seq<int>) {
    Published(x.video, x.published) && (source == 0 || x.author <= 0 || x.author in authors)
  }

  ghost predicate DistinctVideos(items: seq<Item>) {
    forall i, j :: 0 <= i < j < |items| ==> items[i].video != items[j].video
  }

  predicate HasVideo(items: seq<Item>, video: int) {
    exists y | y in items :: y.video == video
  }

  ghost predicate InSome(ranges: seq<seq<Item>>, x: Item) {
    exists i :: 0 <= i < |ranges| && x in ranges[i]
  }

  /** The member is kept, and none read before it that is kept is of the same video. */
  ghost predicate FirstKept(ranges: seq<seq<Item>>, authors: seq<int>, x: Item) {
    exists i, j :: 0 <= i < |ranges| && 0 <= j < |ranges[i]| && FirstAt(ranges, authors, x, i, j)
  }

  ghost predicate FirstAt(ranges: seq<seq<Item>>, authors: seq<int>, x: Item, i: nat, j: nat)
    requires i < |ranges| && j < |ranges[i]|
  {
    && ranges[i][j] == x && Kept(i, x, authors)
    && (forall k, y | 0 <= k < i && y in ranges[k] && Kept(k, y, authors) :: y.video != x.video)
    && (forall l | 0 <= l < j && Kept(i, ranges[i][l], authors) :: ranges[i][l].video != x.video)
  }

  /** Reads the replies one after the other, keeping the first member of each video. */
  method Collect(ranges: seq<seq<Item>>, authors: seq<int>) returns (items: seq<Item>)
    ensures DistinctVideos(items)
    ensures forall x | x in items :: InSome(ranges, x)
    ensures forall i, x | 0 <= i < |ranges| && x in ranges[i] && Kept(i, x, authors) :: HasVideo(items, x.video)
    ensures forall x | x in items :: FirstKept(ranges, authors, x)
  {
    var seen: set<int> := {};
    items := [];
    for i := 0 to |ranges|
      invariant DistinctVideos(items) && forall v :: v in seen <==> HasVideo(items, v)
      invariant forall x | x in items :: InSome(ranges, x) && FirstKept(ranges, authors, x)
      invariant forall k, x | 0 <= k < i && x in ranges[k] && Kept(k, x, authors) :: x.video in seen
    {
      var members := ranges[i];
      for j := 0 to |members|
        invariant DistinctVideos(items) && forall v :: v in seen <==> HasVideo(items, v)
        invariant forall x | x in items :: InSome(ranges, x) && FirstKept(ranges, authors, x)
        invariant forall k, x | 0 <= k < i && x in ranges[k] && Kept(k, x, authors) :: x.video in seen
        invariant forall x | x in members[..j] && Kept(i, x, authors) :: x.video in seen
      {
        var x := members[j];
        assert members[..j + 1] == members[..j] + [x];
        if Published(x.video, x.published) && (i == 0 || x.author <= 0 || x.author in authors) && x.video !in seen {
          assert InSome(ranges, x) && FirstAt(ranges, authors, x, i, j);
          assert forall v :: HasVideo(items + [x], v) <==> HasVideo(items, v) || v == x.video by {
            assert x in items + [x] && forall y :: y in items + [x] <==> y in items || y == x;
          }
          seen := seen + {x.video};
          items := items + [x];
        }
      }
      assert members[..|members|] == members;
    }
  }

  function Inserted(r: seq<Item>, x: Item): seq<Item> {
    if r == [] || Ahead(x, r[0]) then [x] + r else [r[0]] + Inserted(r[1..], x)
  }

  /** The library sort; with one member per video there is only one sorted order. */
  function Sorted(items: seq<Item>): seq<Item> {
    if items == [] then [] else Inserted(Sorted(items[1..]), items[0])
  }

  lemma {:induction false} InsertedElements(r: seq<Item>, x: Item)
    ensures Elements(Inserted(r, x)) == Elements(r) + {x}
  {
    if r != [] {
      assert Elements(r) == {r[0]} + Elements(r[1..]);
      if !Ahead(x, r[0]) {
        InsertedElements(r[1..], x);
        var rest := Inserted(r[1..], x);
        assert Elements([r[0]] + rest) == {r[0]} + Elements(rest);
      }
    }
  }

  lemma {:induction false} InsertedKeepsOrder(r: seq<Item>, x: Item)
    requires Descending(r, Newer) && DistinctVideos(r) && !HasVideo(r, x.video)
    ensures Descending(Inserted(r, x), Newer) && DistinctVideos(Inserted(r, x))
  {
    if r != [] {
      assert r[0] in r && forall y | y in r :: y.video != x.video;
      if Ahead(x, r[0]) {
        assert forall k | 0 <= k < |r| :: Newer(x, r[k]);
      } else {
        assert forall y | y in r[1..] :: y in r;
        InsertedKeepsOrder(r[1..], x);
        InsertedElements(r[1..], x);
        var rest := Inserted(r[1..], x);
        forall k | 0 <= k < |rest| ensures Newer(r[0], rest[k]) && r[0].video != rest[k].video {
          assert rest[k] in Elements(rest);
        }
      }
    }
  }

  lemma {:induction false} SortedIsDescending(items: seq<Item>)
    requires DistinctVideos(items)
    ensures Descending(Sorted(items), Newer)
    ensures Elements(Sorted(items)) == Elements(items) && DistinctVideos(Sorted(items))
  {
    if items != [] {
      var rest := Sorted(items[1..]);
      SortedIsDescending(items[1..]);
      forall y | y in rest ensures y.video != items[0].video {
        assert y in Elements(items[1..]);
        var k :| 0 <= k < |items[1..]| && items[1..][k] == y;
        assert items[k + 1] == y;
      }
      InsertedKeepsOrder(rest, items[0]);
      InsertedElements(rest, items[0]);
      assert Elements(items) == Elements(items[1..]) + {items[0]};
    }
  }

  /** The first members of a descending sequence are the highest. */
  lemma PrefixIsTop(r: seq<Item>, n: nat)
    requires Descending(r, Newer)
    ensures Elements(if |r| > n then r[..n] else r) == Top(Elements(r), Newer, n)
  {
    forall i | 0 <= i < |r| ensures |Higher(Elements(r), Newer, r[i])| == i {
      assert Higher(Elements(r), Newer, r[i]) == Elements(r[..i]) by {
        forall y | y in Elements(r) ensures Newer(y, r[i]) <==> y in r[..i] {
          var k :| 0 <= k < |r| && r[k] == y;
          if k < i { assert r[..i][k] == y; }
        }
      }
      DescendingSize(r[..i]);
    }
  }

  lemma {:induction false} DescendingSize(r: seq<Item>)
    requires Descending(r, Newer)
    ensures |Elements(r)| == |r|
  {
    if r != [] {
      DescendingSize(r[1..]);
      assert Elements(r) == {r[0]} + Elements(r[1..]);
    }
  }

  lemma TopUnderSameOrder(s: set<Item>, above: (Item, Item) -> bool, limit: nat)
    requires forall x, y | x in s && y in s :: above(x, y) <==> Newer(x, y)
    ensures Top(s, above, limit) == Top(s, Newer, limit)
  {
    forall x | x in s ensures Higher(s, above, x) == Higher(s, Newer, x) {}
  }

  /** Whole seconds and ids below a million follow the timeline, and so does any cursor made from such a member. */
  lemma RegularFollows(s: set<Item>, cursor: Option<Cursor>)
    requires forall x | x in s :: Regular(x.published, x.video)
    requires OnePerVideo(s)
    requires cursor.Some? ==> Regular(cursor.value.published, cursor.value.video)
    ensures Faithful(s, cursor)
  {
    forall x, y | x in s && y in s ensures Score(x) > Score(y) <==> Ahead(x, y) {
      ScoreIsLexicographic(x, y);
    }
    if cursor.Some? {
      forall x | x in s ensures BelowCursor(x, cursor) <==> AfterCursor(x, cursor) {
        ScoreIsLexicographic(Item(cursor.value.video, 0, cursor.value.published), x);
      }
    }
  }

  /** Then the set's own order is the timeline. */
  lemma SetOrderIsTimeline(s: set<Item>, above: (Item, Item) -> bool)
    requires RedisOrder(above) && FollowsTimeline(s)
    ensures forall x, y | x in s && y in s :: above(x, y) <==> Newer(x, y)
  {
    forall x, y | x in s && y in s ensures above(x, y) <==> Newer(x, y) {
      if x != y { assert Ahead(x, y) || Ahead(y, x); }
    }
  }

  /** Cutting one index shows the newest for every limit exactly when the set's own order is the timeline on it. */
  lemma CutsAreNaiveIff(s: set<Item>, above: (Item, Item) -> bool)
    requires StrictTotal(above)
    ensures (forall k: nat :: Top(s, above, k) == Top(s, Newer, k)) <==>
            (forall x, y | x in s && y in s :: above(x, y) <==> Newer(x, y))
  {
    hide StrictTotal, Top, Newer;
    NewerIsStrictTotal();
    if forall x, y | x in s && y in s :: above(x, y) <==> Newer(x, y) {
      forall k: nat ensures Top(s, above, k) == Top(s, Newer, k) {
        TopUnderSameOrder(s, above, k);
      }
    }
    if forall k: nat :: Top(s, above, k) == Top(s, Newer, k) {
      SameCutsSameOrder(s, above, Newer);
    }
  }

  /** The members collected are those of all replies. */
  lemma CollectedAll(keys: seq<set<Item>>, ranges: seq<seq<Item>>, items: seq<Item>)
    requires |ranges| == |keys| && forall j | 0 <= j < |keys| :: Elements(ranges[j]) <= keys[j]
    requires forall x | x in items :: InSome(ranges, x)
    requires forall i, x | 0 <= i < |ranges| && x in ranges[i] :: HasVideo(items, x.video)
    requires FollowsTimeline(Union(keys))
    ensures forall x :: x in items <==> InSome(ranges, x)
  {
    forall i, x | 0 <= i < |ranges| && x in ranges[i] ensures x in items {
      assert HasVideo(items, x.video);
      var y :| y in items && y.video == x.video;
      var k :| 0 <= k < |ranges| && y in ranges[k];
      assert x in Elements(ranges[i]) && y in Elements(ranges[k]);
      assert x in Union(keys) && y in Union(keys);
    }
  }

  lemma CollectedBelow(keys: seq<set<Item>>, ranges: seq<seq<Item>>, items: seq<Item>, above: (Item, Item) -> bool,
                       cursor: Option<Cursor>, limit: nat)
    requires |ranges| == |keys| && forall x | x in items :: InSome(ranges, x)
    requires forall j | 0 <= j < |keys| :: Elements(ranges[j]) == Top(Below(keys[j], cursor), above, limit)
    ensures Elements(items) <= Below(Union(keys), cursor)
  {
    forall x | x in items ensures x in Below(Union(keys), cursor) {
      var j :| 0 <= j < |ranges| && x in ranges[j];
      assert x in Elements(ranges[j]);
    }
  }

  /** Cutting each key first, then merging and cutting again, gives the naive page of the whole union. */
  lemma PageIsNaive(keys: seq<set<Item>>, ranges: seq<seq<Item>>, items: seq<Item>, above: (Item, Item) -> bool,
                    cursor: Option<Cursor>, limit: nat)
    requires RedisOrder(above) && Faithful(Union(keys), cursor)
    requires |ranges| == |keys|
    requires forall j | 0 <= j < |keys| :: Elements(ranges[j]) == Top(Below(keys[j], cursor), above, limit)
    requires DistinctVideos(items) && forall x | x in items :: InSome(ranges, x)
    requires forall i, x | 0 <= i < |ranges| && x in ranges[i] :: HasVideo(items, x.video)
    ensures var r := Sorted(items); IsPage(if |r| > limit then r[..limit] else r, Union(keys), cursor, limit)
  {
    hide HasVideo, Sorted;
    var all := After(Union(keys), cursor);
    CollectedAll(keys, ranges, items);
    NewerIsStrictTotal();
    forall j | 0 <= j < |keys|
      ensures Elements(ranges[j]) <= all && forall x | x in Top(all, Newer, limit) && x in keys[j] :: x in ranges[j]
    {
      RangeIsNaive(keys, ranges, above, cursor, limit, j);
    }
    assert Elements(items) <= all;
    assert Top(all, Newer, limit) <= Elements(items) by {
      forall x | x in Top(all, Newer, limit) ensures x in items {
        var j :| 0 <= j < |keys| && x in keys[j];
        assert InSome(ranges, x);
      }
    }
    TopOfPart(Elements(items), all, Newer, limit);
    SortedIsDescending(items);
    PrefixIsTop(Sorted(items), limit);
  }

  lemma RangeIsNaive(keys: seq<set<Item>>, ranges: seq<seq<Item>>, above: (Item, Item) -> bool,
                     cursor: Option<Cursor>, limit: nat, j: nat)
    requires RedisOrder(above) && Faithful(Union(keys), cursor)
    requires j < |keys| == |ranges| && Elements(ranges[j]) == Top(Below(keys[j], cursor), above, limit)
    ensures var all := After(Union(keys), cursor);
            Elements(ranges[j]) <= all && forall x | x in Top(all, Newer, limit) && x in keys[j] :: x in ranges[j]
  {
    var all := After(Union(keys), cursor);
    assert keys[j] <= Union(keys);
    var part := Below(keys[j], cursor);
    assert part == After(keys[j], cursor);
    SetOrderIsTimeline(keys[j], above);
    TopUnderSameOrder(part, above, limit);
    TopReachesParts(part, all, Newer, limit);
    forall x | x in Top(all, Newer, limit) && x in keys[j] ensures x in ranges[j] {
      assert x in Elements(ranges[j]);
    }
  }

  lemma {:induction false} OutboxMembers(outboxes: map<int, set<Item>>, authors: seq<int>, i: nat, x: Item)
    requires i < |Outboxes(outboxes, authors)| && x in Outboxes(outboxes, authors)[i]
    ensures exists a :: a in authors && a in outboxes && x in outboxes[a]
  {
    if authors[0] > 0 && i == 0 {
      assert authors[0] in authors;
    } else {
      OutboxMembers(outboxes, authors[1..], if authors[0] > 0 then i - 1 else i, x);
      var a :| a in authors[1..] && a in outboxes && x in outboxes[a];
      assert a in authors;
    }
  }

  /** An outbox only holds its own author's videos, so the author filter drops nothing. */
  lemma EverythingIsKept(inboxes: map<int, set<Item>>, outboxes: map<int, set<Item>>, viewer: int, authors: seq<int>,
                         ranges: seq<seq<Item>>, above: (Item, Item) -> bool, cursor: Option<Cursor>, limit: nat)
    requires forall x | x in Members(inboxes, viewer) :: Published(x.video, x.published)
    requires forall a, x | a in outboxes && x in outboxes[a] :: Published(x.video, x.published) && x.author == a
    requires var keys := [Members(inboxes, viewer)] + Outboxes(outboxes, authors);
             && |ranges| == |keys|
             && forall j | 0 <= j < |keys| :: Elements(ranges[j]) == Top(Below(keys[j], cursor), above, limit)
    ensures forall i, x | 0 <= i < |ranges| && x in ranges[i] :: Kept(i, x, authors)
  {
    var keys := [Members(inboxes, viewer)] + Outboxes(outboxes, authors);
    forall i, x | 0 <= i < |ranges| && x in ranges[i] ensures Kept(i, x, authors) {
      assert x in Elements(ranges[i]) && x in keys[i];
      if i > 0 {
        assert keys[i] == Outboxes(outboxes, authors)[i - 1];
        OutboxMembers(outboxes, authors, i - 1, x);
      }
    }
  }

  /**
   Following the cursor continues where a full page ended: what comes after it is what the page left out,
   and where the scores follow the timeline they follow it at that cursor too.
   */
  lemma NextPageContinues(items: seq<Item>, s: set<Item>, cursor: Option<Cursor>, limit: nat)
    requires OnePerVideo(s) && IsPage(items, s, cursor, limit) && items != []
    ensures var last := items[|items| - 1];
            var next := Some(Cursor(last.video, last.published));
            After(s, next) == After(s, cursor) - Elements(items) && (FollowsTimeline(s) ==> Faithful(s, next))
  {
    var last := items[|items| - 1];
    var all := After(s, cursor);
    NewerIsStrictTotal();
    assert last in Elements(items);
    forall x | x in s
      ensures AfterCursor(x, Some(Cursor(last.video, last.published))) <==> x in all && x !in Elements(items)
    {
      if x in Elements(items) {
        var k :| 0 <= k < |items| && items[k] == x;
        assert x == last || Newer(x, last);
      } else if x in all {
        TopIsAbove(all, Newer, limit, x);
        assert Newer(last, x);
      } else {
        assert last in all;
      }
    }
    if FollowsTimeline(s) {
      forall x | x in s ensures Score(last) > Score(x) <==> Ahead(last, x) {
        assert last in s;
      }
    }
  }
}
