/**
 Scoring, ranking, paging and author interleaving of recommendations
 (backend/internal/application/recommendation/service.go). Scores are exact reals; the logarithm and the
 similarities to the user's interest are parameters. Times are in milliseconds.
 */
module Recommendation {
  import opened Options

  const DEFAULT_LIMIT: nat := 10
  const MAX_LIMIT: nat := 100
  const POOL_MULTIPLIER: nat := 8
  const MIN_POOL: nat := 50
  const MAX_POOL: nat := 500
  const NEAR: real := 0.000000001
  const ZERO_TIME: int := 0

  /** Seventy-two hours. */
  const SPAN: real := 259_200_000.0

  /** A row of the candidate pool. */
  datatype Entry = Entry(video: int, author: int, hot: int, published: int)

  /** What scores are made from: log(1 + n), and if the user has an interest vector the similarities to it. */
  datatype Signals = Signals(log1p: nat -> real, interest: bool, similarity: map<int, real>)

  datatype Candidate = Candidate(video: int, author: int, score: real, published: int)

  datatype Cursor = Cursor(score: real, published: int, video: int)

  function NormalizeLimit(limit: int): (r: nat)
    ensures 0 < r <= 100
    ensures limit <= 0 ==> r == 10
    ensures limit > 0 ==> r <= limit && (r < limit ==> r == 100)
  {
    if limit <= 0 then DEFAULT_LIMIT else if limit > MAX_LIMIT then MAX_LIMIT else limit
  }

  /** The pool is always larger than a page. */
  function CandidatePoolLimit(limit: nat): (r: nat)
    ensures 50 <= r <= 500
    ensures 0 < limit <= 100 ==> r > limit
    ensures r != 8 * limit ==> (8 * limit < 50 && r == 50) || (8 * limit > 500 && r == 500)
  {
    var pool := if limit * POOL_MULTIPLIER < MIN_POOL then MIN_POOL else limit * POOL_MULTIPLIER;
    if pool > MAX_POOL then MAX_POOL else pool
  }

  // ---------------------------------------------------------------------------------------------
  // Scoring
  // ---------------------------------------------------------------------------------------------

  function Age(now: int, published: int): nat {
    if now < published then 0 else now - published
  }

  function Freshness(now: int, published: int): real {
    if published == ZERO_TIME then 0.0 else 1.0 / (1.0 + Age(now, published) as real / SPAN)
  }

  function RankScore(similarity: real, hot: int, freshness: real, signals: Signals): real {
    var h := signals.log1p(if hot < 0 then 0 else hot) / 10.0;
    if signals.interest then similarity * 0.70 + h * 0.20 + freshness * 0.10 else h * 0.65 + freshness * 0.35
  }

  function Scored(x: Entry, signals: Signals, now: int): Candidate {
    var similarity := if signals.interest && x.video in signals.similarity then signals.similarity[x.video] else 0.0;
    Candidate(x.video, x.author, RankScore(similarity, x.hot, Freshness(now, x.published), signals), x.published)
  }

  function Scores(pool: seq<Entry>, signals: Signals, now: int): seq<Candidate> {
    if pool == [] then [] else [Scored(pool[0], signals, now)] + Scores(pool[1..], signals, now)
  }

  lemma Positive(x: real, y: real)
    requires x > 0.0 && y > 0.0
    ensures x * y > 0.0
  {
  }

  lemma SmallerFactor(x: real, y: real, k: real)
    requires x * k < y * k && k > 0.0
    ensures x < y
  {
    if x > y {
      Positive(x - y, k);
    }
    assert (x - y) * k == x * k - y * k;
  }

  lemma Reciprocal(a: real, b: real)
    requires 1.0 <= a < b
    ensures 0.0 < 1.0 / b < 1.0 / a <= 1.0
  {
    var x, y := 1.0 / a, 1.0 / b;
    assert x * a == 1.0 && y * b == 1.0 && x > 0.0 && y > 0.0;
    Positive(y, b - a);
    assert y * (b - a) == y * b - y * a;
    SmallerFactor(y, x, a);
  }

  /** A video of three days is half as fresh as a new one; one with no publication time is not fresh at all. */
  lemma FreshnessInDays(now: int, published: int)
    ensures published == 0 ==> Freshness(now, published) == 0.0
    ensures published != 0 && now <= published ==> Freshness(now, published) == 1.0
    ensures published != 0 && now >= published ==>
              Freshness(now, published) * (259_200_000.0 + (now - published) as real) == 259_200_000.0
    ensures published != 0 && now - published == 259_200_000 ==> Freshness(now, published) == 0.5
  {
    if published != 0 && now >= published {
      var age := (now - published) as real;
      assert Freshness(now, published) * (1.0 + age / SPAN) == 1.0;
      assert (1.0 + age / SPAN) * SPAN == SPAN + age;
      assert Freshness(now, published) * ((1.0 + age / SPAN) * SPAN) ==
             Freshness(now, published) * (1.0 + age / SPAN) * SPAN;
    }
  }

  /** How near the video is to the user's interest; one without a vector is not near. */
  ghost function Nearness(x: Entry, signals: Signals): real {
    if x.video in signals.similarity then signals.similarity[x.video] else 0.0
  }

  ghost function Heat(x: Entry, signals: Signals): real {
    signals.log1p(if x.hot > 0 then x.hot else 0)
  }

  /**
   What a lead in the score is made of. With an interest vector seven tenths of it are nearness, a tenth is
   freshness and a fiftieth is hotness; without one nearness does not count at all.
   */
  lemma LeadInScore(x: Entry, y: Entry, signals: Signals, now: int)
    ensures var lead := Scored(x, signals, now).score - Scored(y, signals, now).score;
            var fresher := Freshness(now, x.published) - Freshness(now, y.published);
            var hotter := Heat(x, signals) - Heat(y, signals);
            lead == if signals.interest
                    then 0.7 * (Nearness(x, signals) - Nearness(y, signals)) + 0.02 * hotter + 0.1 * fresher
                    else 0.065 * hotter + 0.35 * fresher
  {
  }

  /** Of two videos that are alike otherwise, the nearer, the hotter and the later one is ahead, and only that one. */
  lemma AheadByOneSignal(x: Entry, y: Entry, signals: Signals, now: int)
    ensures var a, b := Scored(x, signals, now), Scored(y, signals, now);
            && (x.hot == y.hot && x.published == y.published ==>
                  (a.score > b.score <==> signals.interest && Nearness(x, signals) > Nearness(y, signals)))
            && (Nearness(x, signals) == Nearness(y, signals) && x.published == y.published ==>
                  (a.score > b.score <==> Heat(x, signals) > Heat(y, signals)))
            && (Nearness(x, signals) == Nearness(y, signals) && x.hot == y.hot && x.published != 0 && y.published != 0
                ==>
                  (a.score > b.score <==> x.published > y.published && now > y.published))
  {
    LeadInScore(x, y, signals, now);
    if x.published != 0 && y.published != 0 {
      if Age(now, x.published) < Age(now, y.published) {
        AgeDecides(now, x.published, y.published);
      } else if Age(now, y.published) < Age(now, x.published) {
        AgeDecides(now, y.published, x.published);
      }
    }
  }

  lemma AgeDecides(now: int, published: int, earlier: int)
    requires published != ZERO_TIME && earlier != ZERO_TIME && Age(now, published) < Age(now, earlier)
    ensures Freshness(now, published) > Freshness(now, earlier)
  {
    var a, b := Age(now, published) as real, Age(now, earlier) as real;
    assert 0.0 <= a / SPAN < b / SPAN;
    Reciprocal(1.0 + a / SPAN, 1.0 + b / SPAN);
  }

  /** Freshness lies between zero and one, and falls as long as the video gets older. */
  lemma FreshnessFalls(now: int, later: int, published: int)
    requires now <= later && published != 0
    ensures 0.0 < Freshness(later, published) <= Freshness(now, published) <= 1.0
    ensures Freshness(later, published) < Freshness(now, published) <==> now < later && published < later
  {
    var a, b := Age(now, published), Age(later, published);
    assert 0.0 <= a as real / SPAN <= b as real / SPAN;
    if a < b {
      assert a as real / SPAN < b as real / SPAN;
      Reciprocal(1.0 + a as real / SPAN, 1.0 + b as real / SPAN);
    } else {
      Reciprocal(1.0 + a as real / SPAN, 2.0 + a as real / SPAN);
    }
  }

  // ---------------------------------------------------------------------------------------------
  // Ranking
  // ---------------------------------------------------------------------------------------------

  /** Publication time and id break ties of the score. */
  predicate LaterThan(x: Candidate, y: Candidate) {
    x.published > y.published || (x.published == y.published && x.video > y.video)
  }

  predicate Ahead(x: Candidate, y: Candidate) {
    x.score > y.score || (x.score == y.score && LaterThan(x, y))
  }

  function Inserted(r: seq<Candidate>, x: Candidate): seq<Candidate> {
    if r == [] || !Ahead(r[0], x) then [x] + r else [r[0]] + Inserted(r[1..], x)
  }

  /** The library's stable sort. */
  function Sorted(candidates: seq<Candidate>): seq<Candidate> {
    if candidates == [] then [] else Inserted(Sorted(candidates[1..]), candidates[0])
  }

  predicate HasVideo(candidates: seq<Candidate>, video: int) {
    exists c | c in candidates :: c.video == video
  }

  predicate DistinctVideos(candidates: seq<Candidate>) {
    candidates == [] || (!HasVideo(candidates[1..], candidates[0].video) && DistinctVideos(candidates[1..]))
  }

  ghost predicate Ranked(r: seq<Candidate>) {
    forall i, j :: 0 <= i < j < |r| ==> Ahead(r[i], r[j])
  }

  lemma AheadChain(x: Candidate, y: Candidate, z: Candidate)
    requires Ahead(x, y) && Ahead(y, z)
    ensures Ahead(x, z)
  {
  }

  lemma OneIsAhead(x: Candidate, y: Candidate)
    requires x.video != y.video
    ensures Ahead(x, y) || Ahead(y, x)
  {
  }

  lemma RankedFrom(x: Candidate, r: seq<Candidate>)
    requires Ranked(r) && forall c | c in r :: Ahead(x, c)
    ensures Ranked([x] + r)
  {
  }

  lemma RankedTail(r: seq<Candidate>)
    requires Ranked(r) && r != []
    ensures Ranked(r[1..]) && forall c | c in r[1..] :: Ahead(r[0], c)
  {
  }

  lemma {:induction false} InsertedIsRanked(r: seq<Candidate>, x: Candidate)
    requires Ranked(r) && !HasVideo(r, x.video)
    ensures Ranked(Inserted(r, x)) && multiset(Inserted(r, x)) == multiset(r) + multiset{x}
  {
    hide Ranked, Ahead;
    if r == [] {
      assert forall c | c in r :: Ahead(x, c);
      RankedFrom(x, r);
    } else {
      assert r == [r[0]] + r[1..] && r[0] in r;
      RankedTail(r);
      OneIsAhead(x, r[0]);
      if !Ahead(r[0], x) {
        forall c | c in r ensures Ahead(x, c) {
          if c != r[0] { AheadChain(x, r[0], c); }
        }
        RankedFrom(x, r);
      } else {
        InsertedIsRanked(r[1..], x);
        var rest := Inserted(r[1..], x);
        forall c | c in rest ensures Ahead(r[0], c) {
          assert c in multiset(rest);
        }
        RankedFrom(r[0], rest);
      }
    }
  }

  /** Sorting gives the one strictly descending arrangement of the pool. */
  lemma {:induction false} SortedIsRanked(candidates: seq<Candidate>)
    requires DistinctVideos(candidates)
    ensures Ranked(Sorted(candidates)) && multiset(Sorted(candidates)) == multiset(candidates)
    ensures var r := Sorted(candidates);
            forall i, j | 0 <= i < j < |r| ::
              && r[i].score >= r[j].score
              && (r[i].score == r[j].score ==> r[i].published >= r[j].published)
              && (r[i].score == r[j].score && r[i].published == r[j].published ==> r[i].video > r[j].video)
  {
    if candidates != [] {
      var rest := Sorted(candidates[1..]);
      SortedIsRanked(candidates[1..]);
      assert candidates == [candidates[0]] + candidates[1..];
      forall c | c in rest ensures c.video != candidates[0].video {
        assert c in multiset(candidates[1..]);
      }
      InsertedIsRanked(rest, candidates[0]);
    }
  }

  /** Leaves out nil candidates. */
  function Present(pool: seq<Option<Entry>>): seq<Entry> {
    if pool == [] then [] else (if pool[0].Some? then [pool[0].value] else []) + Present(pool[1..])
  }

  lemma {:induction false} PresentAppend(pool: seq<Option<Entry>>, c: Option<Entry>)
    ensures Present(pool + [c]) == Present(pool) + if c.Some? then [c.value] else []
  {
    if pool != [] {
      assert (pool + [c])[1..] == pool[1..] + [c];
      PresentAppend(pool[1..], c);
    }
  }

  lemma {:induction false} ScoresAppend(pool: seq<Entry>, more: seq<Entry>, signals: Signals, now: int)
    ensures Scores(pool + more, signals, now) == Scores(pool, signals, now) + Scores(more, signals, now)
  {
    if pool == [] {
      assert pool + more == more;
    } else {
      assert (pool + more)[1..] == pool[1..] + more;
      ScoresAppend(pool[1..], more, signals, now);
    }
  }

  lemma ScoresOfOne(x: Entry, signals: Signals, now: int)
    ensures Scores([x], signals, now) == [Scored(x, signals, now)]
  {
    assert [x][1..] == [] && Scores([], signals, now) == [];
  }

  /** What a pool is ranked as at a moment. */
  function Ranking(pool: seq<Option<Entry>>, signals: Signals, now: int): seq<Candidate> {
    Sorted(Scores(Present(pool), signals, now))
  }

  predicate HasEntry(entries: seq<Entry>, video: int) {
    exists x | x in entries :: x.video == video
  }

  predicate DistinctEntries(entries: seq<Entry>) {
    entries == [] || (!HasEntry(entries[1..], entries[0].video) && DistinctEntries(entries[1..]))
  }

  lemma {:induction false} ScoresKeepVideos(entries: seq<Entry>, signals: Signals, now: int)
    ensures forall v :: HasVideo(Scores(entries, signals, now), v) ==> HasEntry(entries, v)
    ensures DistinctEntries(entries) ==> DistinctVideos(Scores(entries, signals, now))
  {
    if entries != [] {
      var rest := Scores(entries[1..], signals, now);
      ScoresKeepVideos(entries[1..], signals, now);
      assert Scores(entries, signals, now)[1..] == rest;
      forall v | HasVideo(Scores(entries, signals, now), v) ensures HasEntry(entries, v) {
        assert entries[0] in entries && forall x | x in entries[1..] :: x in entries;
        assert HasVideo(rest, v) || v == entries[0].video;
      }
    }
  }

  /** The pool, ranked by the scores it has now. None when the vectors or the interest cannot be loaded. */
  method RankCandidates(pool: seq<Option<Entry>>, signals: Option<Signals>, now: int)
    returns (ranked: Option<seq<Candidate>>)
    ensures ranked.None? <==> pool != [] && signals.None?
    ensures pool == [] ==> ranked == Some([])
    ensures signals.Some? ==> ranked == Some(Ranking(pool, signals.value, now))
  {
    if |pool| == 0 {
      return Some([]);
    }
    if signals.None? {
      return None;
    }
    var list: seq<Candidate> := [];
    for i := 0 to |pool|
      invariant list == Scores(Present(pool[..i]), signals.value, now)
    {
      PresentAppend(pool[..i], pool[i]);
      assert pool[..i + 1] == pool[..i] + [pool[i]];
      if pool[i].Some? {
        ScoresAppend(Present(pool[..i]), [pool[i].value], signals.value, now);
        ScoresOfOne(pool[i].value, signals.value, now);
        list := list + [Scored(pool[i].value, signals.value, now)];
      } else {
        assert Present(pool[..i]) + [] == Present(pool[..i]);
      }
    }
    assert pool[..|pool|] == pool;
    ranked := Some(Sorted(list));
  }

  // ---------------------------------------------------------------------------------------------
  // Filtering by cursor
  // ---------------------------------------------------------------------------------------------

  predicate SameScore(a: real, b: real) {
    -NEAR < a - b < NEAR
  }

  predicate Passes(c: Candidate, cursor: Cursor) {
    || c.score < cursor.score
    || (SameScore(c.score, cursor.score) && c.published < cursor.published)
    || (SameScore(c.score, cursor.score) && c.published == cursor.published && c.video < cursor.video)
  }

  function Passing(r: seq<Candidate>, cursor: Cursor): seq<Candidate> {
    if r == [] then [] else (if Passes(r[0], cursor) then [r[0]] else []) + Passing(r[1..], cursor)
  }

  function Remaining(r: seq<Candidate>, cursor: Option<Cursor>): seq<Candidate> {
    if cursor.None? then r else Passing(r, cursor.value)
  }

  lemma {:induction false} PassingAppend(r: seq<Candidate>, s: seq<Candidate>, cursor: Cursor)
    ensures Passing(r + s, cursor) == Passing(r, cursor) + Passing(s, cursor)
  {
    if r == [] {
      assert r + s == s;
    } else {
      assert (r + s)[1..] == r[1..] + s;
      PassingAppend(r[1..], s, cursor);
    }
  }

  method FilterByCursor(candidates: seq<Candidate>, cursor: Option<Cursor>) returns (filtered: seq<Candidate>)
    ensures filtered == Remaining(candidates, cursor)
  {
    if cursor.None? {
      return candidates;
    }
    filtered := [];
    for i := 0 to |candidates|
      invariant filtered == Passing(candidates[..i], cursor.value)
    {
      PassingAppend(candidates[..i], [candidates[i]], cursor.value);
      assert candidates[..i + 1] == candidates[..i] + [candidates[i]];
      if Passes(candidates[i], cursor.value) {
        filtered := filtered + [candidates[i]];
      }
    }
    assert candidates[..|candidates|] == candidates;
  }

  function CursorOf(c: Candidate): Cursor {
    Cursor(c.score, c.published, c.video)
  }

  predicate ValidCursor(c: Cursor) {
    c.video > 0 && c.published != ZERO_TIME
  }

  /** x is ranked before y by a score difference too small for the filter, which tells them apart the other way. */
  predicate Inverted(x: Candidate, y: Candidate) {
    && -0.000000001 < x.score - y.score < 0.000000001
    && (y.published > x.published || (y.published == x.published && y.video > x.video))
  }

  lemma {:induction false} AllPass(r: seq<Candidate>, cursor: Cursor)
    requires forall c | c in r :: Passes(c, cursor)
    ensures Passing(r, cursor) == r
  {
    if r != [] {
      assert r[0] in r;
      AllPass(r[1..], cursor);
    }
  }

  lemma {:induction false} NonePass(r: seq<Candidate>, cursor: Cursor)
    ensures Passing(r, cursor) == [] <==> forall i | 0 <= i < |r| :: !Passes(r[i], cursor)
  {
    if r != [] {
      NonePass(r[1..], cursor);
      assert forall i | 0 < i < |r| :: r[i] == r[1..][i - 1];
      if forall i | 0 <= i < |r| :: !Passes(r[i], cursor) {
        assert forall i | 0 <= i < |r[1..]| :: r[1..][i] == r[i + 1];
      }
    }
  }

  /**
   Filtering a ranking by the cursor of one of its members never loses a later member: it gives what follows,
   preceded by the inverted ones among those already shown.
   */
  lemma FilterKeepsTheRest(r: seq<Candidate>, i: nat)
    requires Ranked(r) && i < |r|
    ensures Passing(r, CursorOf(r[i])) == Passing(r[..i + 1], CursorOf(r[i])) + r[i + 1..]
  {
    var cursor := CursorOf(r[i]);
    assert r == r[..i + 1] + r[i + 1..];
    PassingAppend(r[..i + 1], r[i + 1..], cursor);
    forall c | c in r[i + 1..] ensures Passes(c, cursor) {
      var k :| 0 <= k < |r[i + 1..]| && r[i + 1..][k] == c;
      assert Ahead(r[i], r[i + 1 + k]);
    }
    AllPass(r[i + 1..], cursor);
  }

  /** The filter gives exactly what follows if and only if no earlier member is inverted with the cursor's. */
  lemma FilterIsExactIff(r: seq<Candidate>, i: nat)
    requires Ranked(r) && i < |r|
    ensures Passing(r, CursorOf(r[i])) == r[i + 1..] <==> forall j | 0 <= j < i :: !Inverted(r[j], r[i])
  {
    var cursor := CursorOf(r[i]);
    FilterKeepsTheRest(r, i);
    NonePass(r[..i + 1], cursor);
    forall j | 0 <= j <= i ensures Passes(r[..i + 1][j], cursor) <==> j < i && Inverted(r[j], r[i]) {
      if j < i { assert Ahead(r[j], r[i]); }
    }
    var repeated := Passing(r[..i + 1], cursor);
    if repeated + r[i + 1..] == r[i + 1..] {
      assert |repeated| == 0;
    }
    var shown := r[..i + 1];
    assert (forall j | 0 <= j < |shown| :: !Passes(shown[j], cursor)) <==>
           forall j | 0 <= j < i :: !Inverted(r[j], r[i]);
  }

  // ---------------------------------------------------------------------------------------------
  // Interleaving by author
  // ---------------------------------------------------------------------------------------------

  /** No two neighbours by one author; the id zero stands for no author. */
  ghost predicate NoNeighbours(s: seq<Candidate>) {
    forall i | 0 < i < |s| :: s[i - 1].author != s[i].author || s[i].author == 0
  }

  ghost predicate AllBy(s: seq<Candidate>, author: int) {
    forall c | c in s :: c.author == author
  }

  /** A prefix without two neighbours by one author, then a tail by the author who ends the prefix. */
  ghost predicate Interleaved(s: seq<Candidate>) {
    s == [] || exists k :: 0 < k <= |s| && SplitAt(s, k)
  }

  ghost predicate SplitAt(s: seq<Candidate>, k: nat)
    requires 0 < k <= |s|
  {
    NoNeighbours(s[..k]) && AllBy(s[k..], s[k - 1].author)
  }

  lemma AppendOne(s: seq<Candidate>, c: Candidate)
    requires NoNeighbours(s) && (s != [] && s[|s| - 1].author == c.author ==> c.author == 0)
    ensures NoNeighbours(s + [c])
  {
  }

  lemma Joined(s: seq<Candidate>, c: Candidate)
    ensures multiset(s + [c]) == multiset(s) + multiset{c}
  {
  }

  lemma TailByOne(s: seq<Candidate>, tail: seq<Candidate>)
    requires s != [] && NoNeighbours(s) && AllBy(tail, s[|s| - 1].author)
    ensures Interleaved(s + tail)
  {
    assert (s + tail)[..|s|] == s && (s + tail)[|s|..] == tail;
    assert SplitAt(s + tail, |s|);
  }

  lemma ShortIsInterleaved(s: seq<Candidate>)
    requires |s| <= 2
    ensures Interleaved(s)
  {
    if |s| == 1 {
      assert SplitAt(s, 1);
    } else if |s| == 2 {
      if s[0].author == s[1].author { assert SplitAt(s, 1); } else { assert SplitAt(s, 2); }
    }
  }

  lemma AsideStep(done: seq<Candidate>, output: seq<Candidate>, delayed: seq<Candidate>, c: Candidate)
    requires multiset(output) + multiset(delayed) == multiset(done)
    ensures multiset(output + [c]) + multiset(delayed) == multiset(done + [c])
    ensures multiset(output) + multiset(delayed + [c]) == multiset(done + [c])
  {
    Joined(done, c);
    Joined(output, c);
    Joined(delayed, c);
    var one := multiset{c};
    assert multiset(output) + one + multiset(delayed) == multiset(output) + multiset(delayed) + one;
    assert multiset(output) + (multiset(delayed) + one) == multiset(output) + multiset(delayed) + one;
  }

  lemma NeighbourOf(s: seq<Candidate>, i: nat)
    requires i < |s|
    ensures NoNeighbours(s) && i > 0 ==> s[i - 1].author != s[i].author || s[i].author == 0
  {
  }

  lemma NoneInEmpty()
    ensures NoNeighbours([])
  {
  }

  /** A candidate follows when its author is that of the one before it. */
  predicate Follows(candidates: seq<Candidate>, i: nat)
    requires i < |candidates|
  {
    i > 0 && candidates[i].author != 0 && candidates[i].author == candidates[i - 1].author
  }

  /** Those that do not follow, or those that do, in the order in which they come. */
  function Of(candidates: seq<Candidate>, following: bool): seq<Candidate> {
    if candidates == [] then [] else
      var n := |candidates| - 1;
      Of(candidates[..n], following) + if Follows(candidates, n) == following then [candidates[n]] else []
  }

  lemma NoneOf()
    ensures Of([], false) == [] && Of([], true) == []
    ensures forall last :: RoundOf(last, [], false) == [] && RoundOf(last, [], true) == []
  {
  }

  lemma OfAppend(candidates: seq<Candidate>, i: nat, following: bool)
    requires i < |candidates|
    ensures Of(candidates[..i + 1], following) ==
            Of(candidates[..i], following) + if Follows(candidates, i) == following then [candidates[i]] else []
  {
    assert candidates[..i + 1][..i] == candidates[..i];
  }

  /** One round over the delayed: those that are placed behind `last`, and those that stay. */
  function RoundOf(last: int, delayed: seq<Candidate>, placed: bool): seq<Candidate>
    decreases |delayed|
  {
    if delayed == [] then []
    else
      var fits := delayed[0].author != last;
      (if fits == placed then [delayed[0]] else []) +
      RoundOf(if fits then delayed[0].author else last, delayed[1..], placed)
  }

  /** Rounds until one places nothing; what is left comes last. */
  function Rounds(last: int, delayed: seq<Candidate>): seq<Candidate>
    decreases |delayed|
  {
    var placed, left := RoundOf(last, delayed, true), RoundOf(last, delayed, false);
    if |left| >= |delayed| || placed == [] then delayed
    else placed + Rounds(placed[|placed| - 1].author, left)
  }

  function Author(s: seq<Candidate>): int {
    if s == [] then 0 else s[|s| - 1].author
  }

  /** The author of the last candidate placed after these. */
  function LastOf(last: int, delayed: seq<Candidate>): int {
    var placed := RoundOf(last, delayed, true);
    if placed == [] then last else Author(placed)
  }

  lemma LastPlaced(output: seq<Candidate>, delayed: seq<Candidate>)
    ensures Author(output + RoundOf(Author(output), delayed, true)) == LastOf(Author(output), delayed)
  {
    assert output + [] == output;
  }

  lemma {:induction false} RoundAppend(last: int, delayed: seq<Candidate>, c: Candidate, placed: bool)
    ensures RoundOf(last, delayed + [c], placed) ==
            RoundOf(last, delayed, placed) + if (c.author != LastOf(last, delayed)) == placed then [c] else []
    decreases |delayed|
  {
    if delayed == [] {
      assert RoundOf(if c.author != last then c.author else last, [], placed) == [];
    } else {
      var next := if delayed[0].author != last then delayed[0].author else last;
      assert (delayed + [c])[1..] == delayed[1..] + [c];
      RoundAppend(next, delayed[1..], c, placed);
      assert LastOf(last, delayed) == LastOf(next, delayed[1..]);
    }
  }

  lemma {:induction false} RoundSplits(last: int, delayed: seq<Candidate>)
    ensures |RoundOf(last, delayed, true)| + |RoundOf(last, delayed, false)| == |delayed|
    ensures RoundOf(last, delayed, true) == [] ==> RoundOf(last, delayed, false) == delayed
    decreases |delayed|
  {
    if delayed != [] {
      RoundSplits(if delayed[0].author != last then delayed[0].author else last, delayed[1..]);
    }
  }

  lemma {:induction false} OfKeepsAll(candidates: seq<Candidate>)
    ensures multiset(Of(candidates, false)) + multiset(Of(candidates, true)) == multiset(candidates)
  {
    hide Of, Follows;
    if candidates == [] {
      NoneOf();
    } else {
      var n := |candidates| - 1;
      OfKeepsAll(candidates[..n]);
      OfLast(candidates, n, Follows(candidates, n));
      assert candidates == candidates[..n] + [candidates[n]];
      AsideStep(candidates[..n], Of(candidates[..n], false), Of(candidates[..n], true), candidates[n]);
    }
  }

  lemma OfLast(candidates: seq<Candidate>, n: nat, follows: bool)
    requires |candidates| == n + 1 && follows == Follows(candidates, n)
    ensures Of(candidates, follows) == Of(candidates[..n], follows) + [candidates[n]]
    ensures Of(candidates, !follows) == Of(candidates[..n], !follows)
  {
    hide Of, Follows;
    assert candidates[..n + 1] == candidates;
    OfAppend(candidates, n, follows);
    OfAppend(candidates, n, !follows);
    assert Of(candidates[..n], !follows) + [] == Of(candidates[..n], !follows);
  }

  lemma {:induction false} OfHasNone(candidates: seq<Candidate>)
    ensures var output := Of(candidates, false);
            && NoNeighbours(output) && Author(output) == Author(candidates)
            && (candidates != [] ==> output != [] && output[0] == candidates[0])
  {
    hide NoNeighbours;
    if candidates == [] {
      NoneInEmpty();
    } else {
      var n := |candidates| - 1;
      var before := Of(candidates[..n], false);
      OfHasNone(candidates[..n]);
      assert n > 0 ==> Author(candidates[..n]) == candidates[n - 1].author;
      if Follows(candidates, n) {
        assert Of(candidates, false) == before;
      } else {
        AppendOne(before, candidates[n]);
      }
    }
  }

  lemma {:induction false} OfIsAll(candidates: seq<Candidate>)
    requires NoNeighbours(candidates)
    ensures Of(candidates, false) == candidates && Of(candidates, true) == []
  {
    if candidates != [] {
      var n := |candidates| - 1;
      NeighbourOf(candidates, n);
      OfIsAll(candidates[..n]);
      assert !Follows(candidates, n);
      assert candidates == candidates[..n] + [candidates[n]];
    }
  }

  lemma RoundsEnd(last: int)
    ensures Rounds(last, []) == []
  {
  }

  lemma RoundsNext(output: seq<Candidate>, delayed: seq<Candidate>)
    requires delayed != []
    ensures var placed, left := RoundOf(Author(output), delayed, true), RoundOf(Author(output), delayed, false);
            output + Rounds(Author(output), delayed) ==
            if |left| == |delayed| then output + left else output + placed + Rounds(Author(output + placed), left)
  {
    RoundSplits(Author(output), delayed);
  }

  /** The first pass: candidates by the previous author are delayed. */
  method SetAside(candidates: seq<Candidate>) returns (output: seq<Candidate>, delayed: seq<Candidate>)
    ensures NoNeighbours(output) && multiset(output) + multiset(delayed) == multiset(candidates)
    ensures candidates != [] ==> output != [] && output[0] == candidates[0]
    ensures NoNeighbours(candidates) ==> output == candidates && delayed == []
    ensures output == Of(candidates, false) && delayed == Of(candidates, true)
  {
    hide NoNeighbours, Of;
    output, delayed := [], [];
    NoneOf();
    var previous := 0;
    for i := 0 to |candidates|
      invariant output == Of(candidates[..i], false) && delayed == Of(candidates[..i], true)
      invariant previous == if i > 0 then candidates[i - 1].author else 0
    {
      OfAppend(candidates, i, false);
      OfAppend(candidates, i, true);
      var c := candidates[i];
      if previous != 0 && c.author == previous {
        delayed := delayed + [c];
      } else {
        output := output + [c];
        previous := c.author;
      }
    }
    assert candidates[..|candidates|] == candidates;
    OfKeepsAll(candidates);
    OfHasNone(candidates);
    if NoNeighbours(candidates) {
      OfIsAll(candidates);
    }
  }

  lemma {:induction false} RoundKeepsAll(last: int, delayed: seq<Candidate>)
    ensures multiset(RoundOf(last, delayed, true)) + multiset(RoundOf(last, delayed, false)) == multiset(delayed)
    decreases |delayed|
  {
    if delayed != [] {
      var next := if delayed[0].author != last then delayed[0].author else last;
      RoundKeepsAll(next, delayed[1..]);
      assert delayed == [delayed[0]] + delayed[1..];
      Prepended(delayed[0], RoundOf(next, delayed[1..], true));
      Prepended(delayed[0], RoundOf(next, delayed[1..], false));
    }
  }

  lemma Prepended(c: Candidate, s: seq<Candidate>)
    ensures multiset([c] + s) == multiset{c} + multiset(s) && [] + s == s
  {
  }

  lemma {:induction false} RoundHasNone(output: seq<Candidate>, delayed: seq<Candidate>)
    requires NoNeighbours(output) && output != []
    ensures NoNeighbours(output + RoundOf(Author(output), delayed, true))
    ensures RoundOf(Author(output), delayed, true) == [] ==> AllBy(delayed, Author(output))
    decreases |delayed|
  {
    hide NoNeighbours;
    if delayed == [] {
      assert output + [] == output;
    } else {
      var c, rest := delayed[0], delayed[1..];
      if c.author != Author(output) {
        AppendOne(output, c);
        RoundHasNone(output + [c], rest);
        assert output + RoundOf(Author(output), delayed, true) == output + [c] + RoundOf(c.author, rest, true);
      } else {
        RoundHasNone(output, rest);
        assert RoundOf(Author(output), delayed, true) == RoundOf(Author(output), rest, true);
        assert delayed == [c] + rest;
      }
    }
  }

  lemma RoundKeeps(output: seq<Candidate>, delayed: seq<Candidate>)
    requires NoNeighbours(output) && output != []
    ensures var placed, left := RoundOf(Author(output), delayed, true), RoundOf(Author(output), delayed, false);
            && NoNeighbours(output + placed)
            && multiset(output + placed) + multiset(left) == multiset(output) + multiset(delayed)
            && (|left| == |delayed| ==> left == delayed && AllBy(delayed, Author(output)))
  {
    hide NoNeighbours, RoundOf, AllBy;
    RoundKeepsAll(Author(output), delayed);
    RoundHasNone(output, delayed);
    RoundSplits(Author(output), delayed);
  }

  /** One round over the delayed candidates. */
  method Round(output: seq<Candidate>, delayed: seq<Candidate>)
    returns (longer: seq<Candidate>, remaining: seq<Candidate>)
    requires output != []
    ensures longer == output + RoundOf(Author(output), delayed, true)
    ensures remaining == RoundOf(Author(output), delayed, false)
  {
    hide RoundOf, LastOf;
    longer, remaining := output, [];
    NoneOf();
    LastPlaced(output, []);
    for i := 0 to |delayed|
      invariant longer == output + RoundOf(Author(output), delayed[..i], true)
      invariant remaining == RoundOf(Author(output), delayed[..i], false)
    {
      LastPlaced(output, delayed[..i]);
      RoundAppend(Author(output), delayed[..i], delayed[i], true);
      RoundAppend(Author(output), delayed[..i], delayed[i], false);
      var c := delayed[i];
      assert delayed[..i + 1] == delayed[..i] + [c];
      if longer[|longer| - 1].author == c.author {
        remaining := remaining + [c];
      } else {
        longer := longer + [c];
      }
    }
    assert delayed[..|delayed|] == delayed;
  }

  /** Two candidates stay as they are either way. */
  lemma ShortIsGreedy(candidates: seq<Candidate>)
    requires |candidates| <= 2
    ensures Greedy(candidates) == candidates
  {
    if |candidates| == 1 {
      assert candidates[..0] == [];
      assert Of(candidates, false) == candidates && Of(candidates, true) == [];
    } else if |candidates| == 2 {
      assert candidates[..1][..0] == [] && candidates == [candidates[0]] + [candidates[1]];
      assert Of(candidates[..1], false) == [candidates[0]] && Of(candidates[..1], true) == [];
      if Follows(candidates, 1) {
        var c := [candidates[1]];
        assert c[1..] == [] && RoundOf(Author([candidates[0]]), c, true) == [];
      }
    }
  }

  /** First those that do not follow one by the same author, then the others, round after round. */
  function Greedy(candidates: seq<Candidate>): seq<Candidate> {
    Of(candidates, false) + Rounds(Author(Of(candidates, false)), Of(candidates, true))
  }

  /**
   The result is a permutation that keeps the first candidate, and everything when nothing has to move. It
   terminates because every further round places at least one candidate.
   */
  method InterleaveByAuthor(candidates: seq<Candidate>) returns (output: seq<Candidate>)
    ensures multiset(output) == multiset(candidates)
    ensures Interleaved(output)
    ensures candidates != [] ==> output[0] == candidates[0]
    ensures NoNeighbours(candidates) ==> output == candidates
    ensures output == Greedy(candidates)
  {
    hide Rounds, RoundOf, NoNeighbours, Of;
    if |candidates| <= 2 {
      ShortIsInterleaved(candidates);
      ShortIsGreedy(candidates);
      return candidates;
    }
    var delayed;
    output, delayed := SetAside(candidates);
    while |delayed| > 0
      invariant NoNeighbours(output) && output != [] && output[0] == candidates[0]
      invariant multiset(output) + multiset(delayed) == multiset(candidates)
      invariant NoNeighbours(candidates) ==> output == candidates && delayed == []
      invariant Greedy(candidates) == output + Rounds(Author(output), delayed)
      decreases |delayed|
    {
      var longer, remaining := Round(output, delayed);
      RoundsNext(output, delayed);
      RoundKeeps(output, delayed);
      RoundSplits(Author(output), delayed);
      if |remaining| == |delayed| {
        TailByOne(output, remaining);
        return output + remaining;
      }
      output, delayed := longer, remaining;
    }
    RoundsEnd(Author(output));
    assert output + [] == output;
    TailByOne(output, []);
  }

  // ---------------------------------------------------------------------------------------------
  // Pages
  // ---------------------------------------------------------------------------------------------

  function Prefix(r: seq<Candidate>, limit: nat): seq<Candidate> {
    if |r| > limit then r[..limit] else r
  }

  /** The cursor a page hands out; an invalid one is encoded as the empty cursor, which starts over. */
  function NextCursor(page: seq<Candidate>): Option<Cursor> {
    if page == [] then None
    else if ValidCursor(CursorOf(page[|page| - 1])) then Some(CursorOf(page[|page| - 1]))
    else None
  }

  /** The cursor as it comes: absent, not to be decoded, or decoded. */
  datatype Given = NoCursor | Unreadable | Decoded(cursor: Cursor)

  datatype Error = InvalidCursor | InvalidRequest | LoadFailed

  datatype Result = Ok(page: seq<Candidate>, next: Option<Cursor>, hasMore: bool) | Err(error: Error)

  /** `valid` says whether user, scene and request id are; pool and signals are None when they cannot be loaded. */
  method Recommend(given: Given, valid: bool, limit: int, pool: Option<seq<Option<Entry>>>,
                   signals: Option<Signals>, now: int)
    returns (r: Result)
    ensures r == Err(InvalidCursor) <==>
            given.Unreadable? || (given.Decoded? && (given.cursor.video <= 0 || given.cursor.published == 0))
    ensures r == Err(InvalidRequest) <==> r != Err(InvalidCursor) && !valid
    ensures r == Err(LoadFailed) <==>
            r != Err(InvalidCursor) && valid && (pool.None? || (pool.value != [] && signals.None?))
    ensures r.Ok? ==> pool.Some? && (pool.value == [] || signals.Some?)
    ensures r.Ok? ==>
              var ranking := if pool.value == [] then [] else Ranking(pool.value, signals.value, now);
              var rest := Remaining(ranking, if given.NoCursor? then None else Some(given.cursor));
              var first := Prefix(rest, NormalizeLimit(limit));
              && r.page == Greedy(first) && multiset(r.page) == multiset(first) && Interleaved(r.page)
              && r.next == NextCursor(first)
              && (r.hasMore <==> |rest| > NormalizeLimit(limit))
  {
    var n := NormalizeLimit(limit);
    if given.Unreadable? || (given.Decoded? && !ValidCursor(given.cursor)) {
      return Err(InvalidCursor);
    }
    if !valid {
      return Err(InvalidRequest);
    }
    if pool.None? {
      return Err(LoadFailed);
    }
    var candidates := RankCandidates(pool.value, signals, now);
    if candidates.None? {
      return Err(LoadFailed);
    }
    var cursor := if given.Decoded? then Some(given.cursor) else None;
    var ranked := FilterByCursor(candidates.value, cursor);
    var hasMore := |ranked| > n;
    if hasMore {
      ranked := ranked[..n];
    }
    var next := NextCursor(ranked);
    var page := InterleaveByAuthor(ranked);
    r := Ok(page, next, hasMore);
  }

  /** Scores that differ do so by at least the tolerance. */
  ghost predicate Separated(r: seq<Candidate>) {
    forall i, j | 0 <= i < |r| && 0 <= j < |r| :: r[i].score == r[j].score || !SameScore(r[i].score, r[j].score)
  }

  ghost predicate ValidCursors(r: seq<Candidate>) {
    forall c | c in r :: ValidCursor(CursorOf(c))
  }

  /** The cursor of the i-th member is accepted and filters out exactly what has been shown. */
  ghost predicate ExactAt(r: seq<Candidate>, i: nat)
    requires i < |r|
  {
    r[i].video > 0 && r[i].published != 0 && forall j | 0 <= j < i :: !Inverted(r[j], r[i])
  }

  /** So do those of all members that end a page with more to follow, from the page that starts at n. */
  ghost predicate ExactFrom(r: seq<Candidate>, limit: nat, n: nat)
    requires limit > 0
    decreases |r| - n
  {
    n + limit < |r| ==> ExactAt(r, n + limit - 1) && ExactFrom(r, limit, n + limit)
  }

  lemma {:induction false} SeparatedIsExact(r: seq<Candidate>, limit: nat, n: nat)
    requires Ranked(r) && Separated(r) && ValidCursors(r) && limit > 0
    ensures ExactFrom(r, limit, n)
    decreases |r| - n
  {
    if n + limit < |r| {
      var i := n + limit - 1;
      assert r[i] in r;
      forall j | 0 <= j < i ensures !Inverted(r[j], r[i]) {
        assert Ahead(r[j], r[i]);
      }
      SeparatedIsExact(r, limit, n + limit);
    }
  }

  /** A full page out of what is due, and its last member. */
  lemma PageIsSlice(r: seq<Candidate>, limit: nat, n: nat)
    requires limit > 0 && n + limit < |r|
    ensures var page := Prefix(r[n..], limit); page == r[n..n + limit] && page[|page| - 1] == r[n + limit - 1]
  {
  }

  /** The cursor handed out with a member leaves what follows it exactly when it is exact. */
  lemma CursorLeavesIff(r: seq<Candidate>, i: nat)
    requires Ranked(r) && i < |r|
    ensures Remaining(r, NextCursor([r[i]])) == r[i + 1..] <==> ExactAt(r, i)
  {
    hide Ranked, Passing, Inverted;
    FilterIsExactIff(r, i);
    assert |r[i + 1..]| < |r|;
  }

  lemma CursorOfLast(page: seq<Candidate>)
    requires page != []
    ensures NextCursor(page) == NextCursor([page[|page| - 1]])
  {
  }

  /** After a full page that showed what was due, the next one shows what is due exactly when its cursor is exact. */
  lemma PageIsNext(r: seq<Candidate>, cursor: Option<Cursor>, limit: nat, n: nat)
    requires Ranked(r) && limit > 0 && n + limit < |r| && Remaining(r, cursor) == r[n..]
    ensures var page := Prefix(Remaining(r, cursor), limit);
            page == r[n..n + limit] && (Remaining(r, NextCursor(page)) == r[n + limit..] <==> ExactAt(r, n + limit - 1))
  {
    hide Ranked, Remaining, NextCursor, ExactAt, Prefix;
    PageIsSlice(r, limit, n);
    CursorOfLast(r[n..n + limit]);
    CursorLeavesIff(r, n + limit - 1);
  }

  /** The pages handed out, before interleaving, when the client follows the cursor while there is more. */
  ghost function Pages(r: seq<Candidate>, cursor: Option<Cursor>, limit: nat, n: nat): seq<seq<Candidate>>
    requires Ranked(r) && limit > 0 && n <= |r| && Remaining(r, cursor) == r[n..] && ExactFrom(r, limit, n)
    decreases |r| - n
  {
    var rest := Remaining(r, cursor);
    var page := Prefix(rest, limit);
    if |rest| <= limit then [page]
    else
      PageIsNext(r, cursor, limit, n);
      [page] + Pages(r, NextCursor(page), limit, n + limit)
  }

  function Concat(pages: seq<seq<Candidate>>): seq<Candidate> {
    if pages == [] then [] else pages[0] + Concat(pages[1..])
  }

  lemma {:induction false} PagesCover(r: seq<Candidate>, cursor: Option<Cursor>, limit: nat, n: nat)
    requires Ranked(r) && limit > 0 && n <= |r| && Remaining(r, cursor) == r[n..] && ExactFrom(r, limit, n)
    ensures Concat(Pages(r, cursor, limit, n)) == r[n..]
    decreases |r| - n
  {
    hide Ranked, Remaining, NextCursor, ExactAt;
    var rest := Remaining(r, cursor);
    if |rest| <= limit {
      assert Pages(r, cursor, limit, n) == [rest] && Concat([rest]) == rest + Concat([]);
    } else {
      PageIsNext(r, cursor, limit, n);
      var page := Prefix(rest, limit);
      var others := Pages(r, NextCursor(page), limit, n + limit);
      PagesCover(r, NextCursor(page), limit, n + limit);
      assert Pages(r, cursor, limit, n) == [page] + others && ([page] + others)[1..] == others;
      assert r[n..] == r[n..n + limit] + r[n + limit..];
    }
  }

  /**
   For a fixed pool of distinct videos, scored at one moment, whose page ends have exact cursors, following
   the cursor ends, and the pages put together are exactly the sorted ranking: no repeats, no gaps.
   */
  lemma PagingGivesTheRanking(pool: seq<Option<Entry>>, signals: Signals, now: int, limit: int)
    requires DistinctEntries(Present(pool)) && ExactFrom(Ranking(pool, signals, now), NormalizeLimit(limit), 0)
    ensures var r := Ranking(pool, signals, now);
            Ranked(r) && multiset(r) == multiset(Scores(Present(pool), signals, now))
    ensures var r := Ranking(pool, signals, now); Concat(Pages(r, None, NormalizeLimit(limit), 0)) == r
  {
    ScoresKeepVideos(Present(pool), signals, now);
    SortedIsRanked(Scores(Present(pool), signals, now));
    var r := Ranking(pool, signals, now);
    assert r[0..] == r;
    PagesCover(r, None, NormalizeLimit(limit), 0);
  }

  /** Within `fuel` pages a client that follows the cursor has been shown `due` and is told that there is no more. */
  ghost predicate Delivers(r: seq<Candidate>, cursor: Option<Cursor>, limit: nat, fuel: nat, due: seq<Candidate>)
    decreases fuel
  {
    var rest := Remaining(r, cursor);
    var page := Prefix(rest, limit);
    && fuel > 0
    && if |rest| <= limit then page == due
       else page <= due && Delivers(r, NextCursor(page), limit, fuel - 1, due[|page|..])
  }

  lemma {:induction false} ExactDelivers(r: seq<Candidate>, cursor: Option<Cursor>, limit: nat, n: nat)
    requires Ranked(r) && limit > 0 && n <= |r| && Remaining(r, cursor) == r[n..] && ExactFrom(r, limit, n)
    ensures Delivers(r, cursor, limit, |r| - n + 1, r[n..])
    decreases |r| - n
  {
    hide Ranked, Remaining, NextCursor, ExactAt;
    if n + limit < |r| {
      PageIsNext(r, cursor, limit, n);
      var page := Prefix(r[n..], limit);
      ExactDelivers(r, NextCursor(page), limit, n + limit);
      DeliversLater(r, NextCursor(page), limit, |r| - (n + limit) + 1, |r| - n, r[n + limit..]);
      assert r[n..][limit..] == r[n + limit..];
    }
  }

  /** Valid cursors and scores that differ by at least the tolerance, if at all, are enough for every page. */
  lemma SeparatedScoresPage(pool: seq<Option<Entry>>, signals: Signals, now: int, limit: int)
    requires DistinctEntries(Present(pool))
    requires Separated(Ranking(pool, signals, now)) && ValidCursors(Ranking(pool, signals, now))
    ensures var r := Ranking(pool, signals, now); exists fuel: nat :: Delivers(r, None, NormalizeLimit(limit), fuel, r)
  {
    hide Delivers, ExactFrom, Separated, ValidCursors;
    ScoresKeepVideos(Present(pool), signals, now);
    SortedIsRanked(Scores(Present(pool), signals, now));
    SeparatedIsExact(Ranking(pool, signals, now), NormalizeLimit(limit), 0);
    PagingIsExactIff(pool, signals, now, limit);
  }

  lemma {:induction false} DeliversLater(r: seq<Candidate>, cursor: Option<Cursor>, limit: nat, fuel: nat, more: nat,
                                         due: seq<Candidate>)
    requires Delivers(r, cursor, limit, fuel, due) && fuel <= more
    ensures Delivers(r, cursor, limit, more, due)
    decreases fuel
  {
    hide Remaining, NextCursor;
    var rest := Remaining(r, cursor);
    var page := Prefix(rest, limit);
    if |rest| > limit {
      DeliversLater(r, NextCursor(page), limit, fuel - 1, more - 1, due[|page|..]);
    }
  }

  /** What a cursor leaves is what is due, or it starts with something already shown. */
  lemma StartsWithShown(r: seq<Candidate>, i: nat)
    requires Ranked(r) && i + 1 < |r|
    ensures var next := NextCursor([r[i]]);
            var rest := Remaining(r, next);
            rest == r[i + 1..] || (|rest| > |r[i + 1..]| && rest[0] != r[i + 1])
  {
    var next := NextCursor([r[i]]);
    if next.None? {
      assert Ahead(r[0], r[i + 1]);
    } else {
      FilterKeepsTheRest(r, i);
      var again := Passing(r[..i + 1], next.value);
      if again != [] {
        PassingAreMembers(r[..i + 1], next.value);
        assert again[0] in r[..i + 1];
        var k :| 0 <= k < i + 1 && r[..i + 1][k] == again[0];
        assert Ahead(r[k], r[i + 1]);
      }
    }
  }

  lemma {:induction false} PassingAreMembers(r: seq<Candidate>, cursor: Cursor)
    ensures forall c | c in Passing(r, cursor) :: c in r
  {
    if r != [] {
      PassingAreMembers(r[1..], cursor);
    }
  }

  lemma StartsWithDue(r: seq<Candidate>, cursor: Option<Cursor>, limit: nat, fuel: nat, due: seq<Candidate>)
    requires limit > 0 && due != [] && Delivers(r, cursor, limit, fuel, due)
    requires var rest := Remaining(r, cursor); rest == due || (|rest| > |due| && rest[0] != due[0])
    ensures Remaining(r, cursor) == due
  {
    hide Remaining, NextCursor;
    var rest := Remaining(r, cursor);
    if |rest| > limit {
      assert Prefix(rest, limit)[0] == rest[0];
    }
  }

  lemma DeliversNext(r: seq<Candidate>, cursor: Option<Cursor>, limit: nat, fuel: nat, due: seq<Candidate>)
    requires limit < |due| && Remaining(r, cursor) == due && Delivers(r, cursor, limit, fuel, due)
    ensures fuel > 0 && Delivers(r, NextCursor(Prefix(due, limit)), limit, fuel - 1, due[limit..])
  {
  }

  lemma {:induction false} DeliveredIsExact(r: seq<Candidate>, cursor: Option<Cursor>, limit: nat, n: nat, fuel: nat)
    requires Ranked(r) && limit > 0 && n <= |r| && Remaining(r, cursor) == r[n..]
    requires Delivers(r, cursor, limit, fuel, r[n..])
    ensures ExactFrom(r, limit, n)
    decreases |r| - n
  {
    hide Ranked, Remaining, ExactAt, Delivers;
    if n + limit < |r| {
      PageIsNext(r, cursor, limit, n);
      DeliversNext(r, cursor, limit, fuel, r[n..]);
      var page, due := Prefix(r[n..], limit), r[n + limit..];
      assert r[n..][limit..] == due && page[|page| - 1] == r[n + limit - 1];
      assert NextCursor(page) == NextCursor([r[n + limit - 1]]);
      StartsWithShown(r, n + limit - 1);
      StartsWithDue(r, NextCursor(page), limit, fuel - 1, due);
      DeliveredIsExact(r, NextCursor(page), limit, n + limit, fuel - 1);
    }
  }

  /**
   Main result. For a fixed pool of distinct videos, scored at one moment, following the cursor ends having
   shown exactly the sorted ranking if and only if every member that ends a page with more to follow has a
   valid cursor and no inverted member before it.
   */
  lemma PagingIsExactIff(pool: seq<Option<Entry>>, signals: Signals, now: int, limit: int)
    requires DistinctEntries(Present(pool))
    ensures var r := Ranking(pool, signals, now);
            (exists fuel: nat :: Delivers(r, None, NormalizeLimit(limit), fuel, r)) <==>
            ExactFrom(r, NormalizeLimit(limit), 0)
  {
    hide Delivers, ExactFrom;
    ScoresKeepVideos(Present(pool), signals, now);
    SortedIsRanked(Scores(Present(pool), signals, now));
    var r := Ranking(pool, signals, now);
    assert r[0..] == r;
    if ExactFrom(r, NormalizeLimit(limit), 0) {
      ExactDelivers(r, None, NormalizeLimit(limit), 0);
    }
    if fuel: nat :| Delivers(r, None, NormalizeLimit(limit), fuel, r) {
      DeliveredIsExact(r, None, NormalizeLimit(limit), 0, fuel);
    }
  }

  /**
   Scores do not stand still between pages. The candidate a cursor was made from passes that cursor, and so
   comes again, exactly when its video has grown older since: when the clock has moved, past its publication.
   */
  lemma ShownAgainIff(x: Entry, signals: Signals, now: int, later: int)
    requires now <= later
    ensures Passes(Scored(x, signals, later), CursorOf(Scored(x, signals, now))) <==>
            x.published != 0 && now < later && x.published < later
  {
    if x.published != ZERO_TIME {
      FreshnessFalls(now, later, x.published);
    }
  }

  /**
   Near ties do harm. With two scores nearer than the tolerance and the newer video ranked second,
   pages of one go back and forth between the two for ever, and the third candidate is never shown.
   */
  lemma NearTiesLoop()
    ensures exists a: Candidate, b: Candidate, c: Candidate :: Loops(a, b, c)
  {
    var a, b, c := Candidate(1, 1, 0.5000000005, 1), Candidate(2, 2, 0.5, 2), Candidate(3, 3, 0.25, 3);
    ThreeAreRanked(a, b, c);
    NearTiesFilters(a, b, c);
    hide Ranked, DistinctVideos, ValidCursors, Passing;
    assert NextCursor([a]) == Some(CursorOf(a)) && NextCursor([b]) == Some(CursorOf(b));
    assert Loops(a, b, c);
  }

  lemma ThreeAreRanked(a: Candidate, b: Candidate, c: Candidate)
    requires Ahead(a, b) && Ahead(b, c) && Ahead(a, c)
    requires a.video != b.video && b.video != c.video && a.video != c.video
    requires ValidCursor(CursorOf(a)) && ValidCursor(CursorOf(b)) && ValidCursor(CursorOf(c))
    ensures Ranked([a, b, c]) && DistinctVideos([a, b, c]) && ValidCursors([a, b, c])
  {
    hide Ahead;
    assert [a, b, c][1..] == [b, c] && [b, c][1..] == [c] && [c][1..] == [];
    assert DistinctVideos([c]) && DistinctVideos([b, c]);
  }

  /** With pages of one, the page after a's is b's, the page after b's is a's, and each says there is more. */
  ghost predicate Loops(a: Candidate, b: Candidate, c: Candidate) {
    var r := [a, b, c];
    && Ranked(r) && DistinctVideos(r) && ValidCursors(r)
    && Prefix(r, 1) == [a]
    && Prefix(Remaining(r, NextCursor([a])), 1) == [b] && |Remaining(r, NextCursor([a]))| > 1
    && Prefix(Remaining(r, NextCursor([b])), 1) == [a] && |Remaining(r, NextCursor([b]))| > 1
  }

  lemma NearTiesFilters(a: Candidate, b: Candidate, c: Candidate)
    requires !Passes(a, CursorOf(a)) && Passes(b, CursorOf(a)) && Passes(c, CursorOf(a))
    requires Passes(a, CursorOf(b)) && !Passes(b, CursorOf(b)) && Passes(c, CursorOf(b))
    ensures Passing([a, b, c], CursorOf(a)) == [b, c] && Passing([a, b, c], CursorOf(b)) == [a, c]
  {
    var r := [a, b, c];
    assert r[1..] == [b, c] && [b, c][1..] == [c] && [c][1..] == [];
    assert Passing([c], CursorOf(a)) == [c] + Passing([], CursorOf(a));
    assert Passing([c], CursorOf(b)) == [c] + Passing([], CursorOf(b));
    assert Passing([b, c], CursorOf(a)) == [b] + Passing([c], CursorOf(a));
    assert Passing([b, c], CursorOf(b)) == Passing([c], CursorOf(b));
  }
}
