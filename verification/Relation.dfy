/**
 Following and its counts (backend/internal/infra/persistence/relation/gorm.go). `SetFollow` is one
 transaction over the follow row and the two users' statistics; an error rolls everything back.
 */
module Relation {
  import opened Counters
  import opened Options

  datatype Edge = Edge(user: int, target: int)

  /** A row with its status and its trimmed idempotency key, empty when NULL. */
  datatype Follow = Follow(active: bool, key: string)

  datatype Stat = Stat(following: int, followers: int)

  /** `normal` holds the ids of the accounts in normal state. */
  datatype Db = Db(normal: set<int>, follows: map<Edge, Follow>, stats: map<int, Stat>)

  /** The row and the two statistics as the transaction read them last. */
  datatype Answer = Answer(follow: Follow, user: Stat, target: Stat)

  // ---------------------------------------------------------------------------------------------
  // The specification on values
  // ---------------------------------------------------------------------------------------------

  function Ensured(stats: map<int, Stat>, user: int): map<int, Stat> {
    if user in stats then stats else stats[user := Stat(0, 0)]
  }

  function Updated(stats: map<int, Stat>, user: int, following: int, followers: int): map<int, Stat>
    requires user in stats
  {
    stats[user := Stat(Clamp(stats[user].following + following), Clamp(stats[user].followers + followers))]
  }

  predicate IsRetry(follows: map<Edge, Follow>, e: Edge, key: string) {
    key != "" && e in follows && follows[e].key == key
  }

  predicate Follows(follows: map<Edge, Follow>, e: Edge) {
    e in follows && follows[e].active
  }

  function Delta(follows: map<Edge, Follow>, e: Edge, active: bool, key: string): int {
    if IsRetry(follows, e, key) || Follows(follows, e) == active then 0 else if active then 1 else -1
  }

  function Row(follows: map<Edge, Follow>, e: Edge, active: bool, key: string): Follow {
    if IsRetry(follows, e, key) then follows[e] else Follow(active, key)
  }

  predicate Allowed(db: Db, e: Edge) {
    e.user in db.normal && e.target in db.normal
  }

  function AfterSetFollow(db: Db, e: Edge, active: bool, key: string): Db {
    if !Allowed(db, e) then db
    else
      var stats := Ensured(Ensured(db.stats, e.user), e.target);
      var delta := Delta(db.follows, e, active, key);
      db.(follows := db.follows[e := Row(db.follows, e, active, key)],
          stats := if delta == 0 then stats else Updated(Updated(stats, e.user, delta, 0), e.target, 0, delta))
  }

  // ---------------------------------------------------------------------------------------------
  // The transaction
  // ---------------------------------------------------------------------------------------------

  class Repository {
    var normal: set<int>
    var follows: map<Edge, Follow>
    var stats: map<int, Stat>

    ghost function Contents(): Db
      reads this
    {
      Db(normal, follows, stats)
    }

    constructor (normal: set<int>)
      ensures Contents() == Db(normal, map[], map[])
    {
      this.normal := normal;
      follows, stats := map[], map[];
    }

    method EnsureStat(user: int)
      modifies this`stats
      ensures stats == Ensured(old(stats), user)
    {
      if user !in stats {
        stats := stats[user := Stat(0, 0)];
      }
    }

    method UpdateStat(user: int, followingDelta: int, followerDelta: int) returns (stat: Stat)
      requires user in stats
      modifies this`stats
      ensures stats == Updated(old(stats), user, followingDelta, followerDelta) && stat == stats[user]
    {
      stat := stats[user];
      stat := stat.(following := Clamp(stat.following + followingDelta));
      stat := stat.(followers := Clamp(stat.followers + followerDelta));
      stats := stats[user := stat];
    }

    /** None when one of the two accounts is not in normal state. */
    method SetFollow(e: Edge, active: bool, key: string) returns (answer: Option<Answer>)
      modifies this`follows, this`stats
      ensures Contents() == AfterSetFollow(old(Contents()), e, active, key)
      ensures forall o | o != e ::
                (o in follows <==> o in old(follows)) && (o in follows ==> follows[o] == old(follows)[o])
      ensures answer.Some? && !IsRetry(old(follows), e, key) ==> Follows(follows, e) == active
      ensures answer.Some? ==> e in follows && e.user in stats && e.target in stats
      ensures answer.Some? <==> e.user in normal && e.target in normal
      ensures answer.None? ==> Contents() == old(Contents())
      ensures answer.Some? ==>
                var retry := key != "" && e in old(follows) && old(follows)[e].key == key;
                follows[e] == if retry then old(follows)[e] else Follow(active, key)
      ensures answer.Some? ==> answer.value.follow == follows[e] && answer.value.target == stats[e.target]
      ensures answer.Some? ==> answer.value.user.following == stats[e.user].following
      ensures answer.Some? && e.user != e.target ==> answer.value.user == stats[e.user]
    {
      if e.user !in normal || e.target !in normal {
        return None;
      }
      EnsureStat(e.user);
      EnsureStat(e.target);
      var delta := 0;
      var follow: Follow;
      if e !in follows {
        follow := Follow(active, key);
        follows := follows[e := follow];
        if active {
          delta := 1;
        }
      } else {
        follow := follows[e];
        if key != "" && follow.key == key {
          assert follows[e := follow] == follows;
          return Some(Answer(follow, stats[e.user], stats[e.target]));
        }
        var previous := follow;
        if follow.active != active {
          delta := if active then 1 else -1;
        }
        follow := Follow(active, key);
        if previous.active != active || previous.key != key {
          follows := follows[e := follow];
        } else {
          assert follows[e := follow] == follows;
        }
      }
      if delta != 0 {
        var userStat := UpdateStat(e.user, delta, 0);
        var targetStat := UpdateStat(e.target, 0, delta);
        return Some(Answer(follow, userStat, targetStat));
      }
      answer := Some(Answer(follow, stats[e.user], stats[e.target]));
    }
  }

  // ---------------------------------------------------------------------------------------------
  // Counts and edges
  // ---------------------------------------------------------------------------------------------

  function ActiveEdges(follows: map<Edge, Follow>): set<Edge> {
    set e | e in follows && follows[e].active
  }

  function Out(follows: map<Edge, Follow>, user: int): set<Edge> {
    set e | e in follows && follows[e].active && e.user == user
  }

  function In(follows: map<Edge, Follow>, user: int): set<Edge> {
    set e | e in follows && follows[e].active && e.target == user
  }

  ghost predicate DegreesAt(db: Db, u: int)
    requires u in db.stats
  {
    db.stats[u] == Stat(|Out(db.follows, u)|, |In(db.follows, u)|)
  }

  /** The stored counts are the degrees in the graph of active edges. */
  ghost predicate Exact(db: Db) {
    && (forall u | u in db.stats :: DegreesAt(db, u))
    && (forall e | e in db.follows :: e.user in db.stats && e.target in db.stats)
  }

  lemma OutAfter(follows: map<Edge, Follow>, e: Edge, active: bool, key: string, u: int)
    ensures |Out(follows[e := Row(follows, e, active, key)], u)| ==
            |Out(follows, u)| + if e.user == u then Delta(follows, e, active, key) else 0
  {
    var before, after := Out(follows, u), Out(follows[e := Row(follows, e, active, key)], u);
    if e.user != u || Delta(follows, e, active, key) == 0 {
      assert after == before;
    } else if active {
      assert after == before + {e} && e !in before;
    } else {
      assert after == before - {e} && e in before;
    }
  }

  lemma InAfter(follows: map<Edge, Follow>, e: Edge, active: bool, key: string, u: int)
    ensures |In(follows[e := Row(follows, e, active, key)], u)| ==
            |In(follows, u)| + if e.target == u then Delta(follows, e, active, key) else 0
  {
    var before, after := In(follows, u), In(follows[e := Row(follows, e, active, key)], u);
    if e.target != u || Delta(follows, e, active, key) == 0 {
      assert after == before;
    } else if active {
      assert after == before + {e} && e !in before;
    } else {
      assert after == before - {e} && e in before;
    }
  }

  lemma NoEdgesOutside(db: Db, u: int)
    requires Exact(db) && u !in db.stats
    ensures Out(db.follows, u) == {} && In(db.follows, u) == {}
  {
  }

  /** Setting a follow keeps the counts exact, and the clamp at zero changes nothing. */
  lemma SetFollowKeepsExact(db: Db, e: Edge, active: bool, key: string)
    requires Exact(db)
    ensures Exact(AfterSetFollow(db, e, active, key))
    ensures Allowed(db, e) ==>
              var stats := Ensured(Ensured(db.stats, e.user), e.target);
              var delta := Delta(db.follows, e, active, key);
              stats[e.user].following + delta >= 0 && stats[e.target].followers + delta >= 0
  {
    hide Out, In, Delta, Row;
    var after := AfterSetFollow(db, e, active, key);
    if Allowed(db, e) {
      var stats := Ensured(Ensured(db.stats, e.user), e.target);
      forall u | u in after.stats
        ensures DegreesAt(after, u)
        ensures u == e.user ==> stats[u].following + Delta(db.follows, e, active, key) >= 0
        ensures u == e.target ==> stats[u].followers + Delta(db.follows, e, active, key) >= 0
      {
        OutAfter(db.follows, e, active, key, u);
        InAfter(db.follows, e, active, key, u);
        if u in db.stats {
          assert DegreesAt(db, u);
        } else {
          NoEdgesOutside(db, u);
        }
      }
    }
  }

  datatype Request = SetFollow(edge: Edge, active: bool, key: string) | SetStatus(user: int, isNormal: bool)

  /** Banning an account, or registering or restoring one, leaves its follows and counts alone. */
  function Applied(db: Db, request: Request): Db {
    match request
    case SetFollow(edge, active, key) => AfterSetFollow(db, edge, active, key)
    case SetStatus(user, isNormal) => db.(normal := if isNormal then db.normal + {user} else db.normal - {user})
  }

  function AppliedAll(db: Db, requests: seq<Request>): Db
    decreases |requests|
  {
    if requests == [] then db else AppliedAll(Applied(db, requests[0]), requests[1..])
  }

  lemma StatusKeepsExact(db: Db, user: int, isNormal: bool)
    requires Exact(db)
    ensures Exact(Applied(db, SetStatus(user, isNormal)))
  {
    var after := Applied(db, SetStatus(user, isNormal));
    forall u | u in after.stats ensures DegreesAt(after, u) {
      assert DegreesAt(db, u);
    }
  }

  /** After any sequence of requests and changes of status every count is the user's degree. */
  lemma {:induction false} CountsAreDegrees(db: Db, requests: seq<Request>)
    requires Exact(db)
    ensures Exact(AppliedAll(db, requests))
    decreases |requests|
  {
    hide Exact, AfterSetFollow;
    if requests != [] {
      match requests[0] {
        case SetFollow(edge, active, key) => SetFollowKeepsExact(db, edge, active, key);
        case SetStatus(user, isNormal) => StatusKeepsExact(db, user, isNormal);
      }
      CountsAreDegrees(Applied(db, requests[0]), requests[1..]);
    }
  }

  // ---------------------------------------------------------------------------------------------
  // Totals
  // ---------------------------------------------------------------------------------------------

  function TotalFollowing(stats: map<int, Stat>, users: seq<int>): int
    requires forall i | 0 <= i < |users| :: users[i] in stats
  {
    if users == [] then 0 else stats[users[0]].following + TotalFollowing(stats, users[1..])
  }

  function TotalFollowers(stats: map<int, Stat>, users: seq<int>): int
    requires forall i | 0 <= i < |users| :: users[i] in stats
  {
    if users == [] then 0 else stats[users[0]].followers + TotalFollowers(stats, users[1..])
  }

  predicate Distinct(users: seq<int>) {
    users == [] || (users[0] !in users[1..] && Distinct(users[1..]))
  }

  function OutOfAny(follows: map<Edge, Follow>, users: seq<int>): set<Edge> {
    set e | e in follows && follows[e].active && e.user in users
  }

  function IntoAny(follows: map<Edge, Follow>, users: seq<int>): set<Edge> {
    set e | e in follows && follows[e].active && e.target in users
  }

  lemma {:induction false} FollowingCountsEdges(db: Db, users: seq<int>)
    requires Exact(db) && Distinct(users) && forall i | 0 <= i < |users| :: users[i] in db.stats
    ensures TotalFollowing(db.stats, users) == |OutOfAny(db.follows, users)|
  {
    if users == [] {
      assert OutOfAny(db.follows, users) == {};
    } else {
      FollowingCountsEdges(db, users[1..]);
      assert DegreesAt(db, users[0]);
      assert OutOfAny(db.follows, users) == Out(db.follows, users[0]) + OutOfAny(db.follows, users[1..]);
    }
  }

  lemma {:induction false} FollowersCountEdges(db: Db, users: seq<int>)
    requires Exact(db) && Distinct(users) && forall i | 0 <= i < |users| :: users[i] in db.stats
    ensures TotalFollowers(db.stats, users) == |IntoAny(db.follows, users)|
  {
    if users == [] {
      assert IntoAny(db.follows, users) == {};
    } else {
      FollowersCountEdges(db, users[1..]);
      assert DegreesAt(db, users[0]);
      assert IntoAny(db.follows, users) == In(db.follows, users[0]) + IntoAny(db.follows, users[1..]);
    }
  }

  /** Summed over all users, in any order, both counts give the number of active edges. */
  lemma TotalsAreEdges(db: Db, requests: seq<Request>, users: seq<int>)
    requires Exact(db) && Distinct(users)
    requires forall i | 0 <= i < |users| :: users[i] in AppliedAll(db, requests).stats
    requires forall u | u in AppliedAll(db, requests).stats :: u in users
    ensures var after := AppliedAll(db, requests);
            TotalFollowing(after.stats, users) == TotalFollowers(after.stats, users) == |ActiveEdges(after.follows)|
  {
    var after := AppliedAll(db, requests);
    CountsAreDegrees(db, requests);
    FollowingCountsEdges(after, users);
    FollowersCountEdges(after, users);
    assert OutOfAny(after.follows, users) == ActiveEdges(after.follows) == IntoAny(after.follows, users);
  }
}
