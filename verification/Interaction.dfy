/**
 Likes, favourites and comments in the database (backend/internal/infra/persistence/interaction/gorm.go).
 Each method is one transaction: either it commits everything it changed or it changes nothing.
 */
module Interaction {
  import opened Counters
  import opened Options

  datatype Kind = Like | Favorite

  datatype Field = Likes | Favorites | Comments

  datatype Target = Target(user: int, video: int, kind: Kind)

  /** A row with its status (active or cancelled) and the trimmed idempotency key, empty when NULL. */
  datatype Action = Action(active: bool, key: string)

  datatype Comment = Comment(video: int, user: int, deleted: bool, key: string)

  datatype Video = Video(author: int, published: bool)

  datatype Stat = Stat(likes: int, favorites: int, comments: int)

  datatype Db = Db(
    videos: map<int, Video>,
    stats: map<int, Stat>,
    actions: map<Target, Action>,
    comments: map<nat, Comment>,
    nextComment: nat)

  datatype Error = VideoNotFound | CommentNotFound | PermissionDenied

  datatype Result<+T> = Ok(value: T) | Err(error: Error)

  /** What a transaction answers: the row it concerns, the count after it and the change it made. */
  datatype Answer<+T> = Answer(row: T, count: int, delta: int)

  // ---------------------------------------------------------------------------------------------
  // The specification on values
  // ---------------------------------------------------------------------------------------------

  function Counter(stat: Stat, field: Field): int {
    match field
    case Likes => stat.likes
    case Favorites => stat.favorites
    case Comments => stat.comments
  }

  function WithCounter(stat: Stat, field: Field, n: int): Stat {
    match field
    case Likes => stat.(likes := n)
    case Favorites => stat.(favorites := n)
    case Comments => stat.(comments := n)
  }

  function ActionField(kind: Kind): Field {
    if kind.Like? then Likes else Favorites
  }

  predicate IsPublished(videos: map<int, Video>, video: int) {
    video in videos && videos[video].published
  }

  function Stored(actions: map<Target, Action>, t: Target): Option<Action> {
    if t in actions then Some(actions[t]) else None
  }

  /** The stored row was written under this very key, so the call is a client's retry. */
  predicate IsRetry(stored: Option<Action>, key: string) {
    key != "" && stored.Some? && stored.value.key == key
  }

  predicate IsActive(stored: Option<Action>) {
    stored.Some? && stored.value.active
  }

  function ActionRow(stored: Option<Action>, active: bool, key: string): Action {
    if IsRetry(stored, key) then stored.value else Action(active, key)
  }

  /** By how much the call moves the count. */
  function ActionDelta(stored: Option<Action>, active: bool, key: string): int {
    if IsRetry(stored, key) || IsActive(stored) == active then 0 else if active then 1 else -1
  }

  function Bumped(stats: map<int, Stat>, video: int, field: Field, delta: int): map<int, Stat>
    requires video in stats
  {
    stats[video := WithCounter(stats[video], field, Clamp(Counter(stats[video], field) + delta))]
  }

  predicate CanAct(db: Db, video: int) {
    IsPublished(db.videos, video) && video in db.stats
  }

  function AfterSetAction(db: Db, t: Target, active: bool, key: string): Db {
    if !CanAct(db, t.video) then db
    else
      var stored := Stored(db.actions, t);
      db.(actions := db.actions[t := ActionRow(stored, active, key)],
          stats := if ActionDelta(stored, active, key) == 0 then db.stats
                   else Bumped(db.stats, t.video, ActionField(t.kind), ActionDelta(stored, active, key)))
  }

  predicate Wrote(c: Comment, user: int, key: string) {
    c.user == user && c.key == key
  }

  /** The unique index on (user_id, idempotency_key); NULL keys never collide. */
  predicate Collides(comments: map<nat, Comment>, user: int, key: string) {
    key != "" && exists id | id in comments :: Wrote(comments[id], user, key)
  }

  function AfterCreateComment(db: Db, video: int, user: int, key: string): Db {
    if !CanAct(db, video) || Collides(db.comments, user, key) then db
    else db.(comments := db.comments[db.nextComment := Comment(video, user, false, key)],
             nextComment := db.nextComment + 1,
             stats := Bumped(db.stats, video, Comments, 1))
  }

  predicate MayDelete(db: Db, c: Comment, user: int, admin: bool) {
    c.video in db.videos && (c.user == user || db.videos[c.video].author == user || admin)
  }

  function AfterDeleteComment(db: Db, id: nat, user: int, admin: bool): Db {
    if id !in db.comments || !MayDelete(db, db.comments[id], user, admin) then db
    else
      var c := db.comments[id];
      if c.deleted || c.video !in db.stats then db
      else db.(comments := db.comments[id := c.(deleted := true)], stats := Bumped(db.stats, c.video, Comments, -1))
  }

  // ---------------------------------------------------------------------------------------------
  // The transactions
  // ---------------------------------------------------------------------------------------------

  class Repository {
    var videos: map<int, Video>
    var stats: map<int, Stat>
    var actions: map<Target, Action>
    var comments: map<nat, Comment>
    var nextComment: nat

    ghost function Contents(): Db
      reads this
    {
      Db(videos, stats, actions, comments, nextComment)
    }

    constructor (videos: map<int, Video>, stats: map<int, Stat>)
      ensures Contents() == Db(videos, stats, map[], map[], 0)
    {
      this.videos, this.stats := videos, stats;
      actions, comments, nextComment := map[], map[], 0;
    }

    /** updateVideoStatCounter; the row is locked, so nothing else changes it in between. */
    method UpdateCounter(video: int, field: Field, delta: int) returns (count: int)
      requires video in stats
      modifies this`stats
      ensures stats == Bumped(old(stats), video, field, delta)
      ensures count == Counter(stats[video], field)
    {
      var stat := stats[video];
      match field {
        case Likes => stat := stat.(likes := Clamp(stat.likes + delta));
        case Favorites => stat := stat.(favorites := Clamp(stat.favorites + delta));
        case Comments => stat := stat.(comments := Clamp(stat.comments + delta));
      }
      stats := stats[video := stat];
      count := Counter(stat, field);
    }

    method SetAction(t: Target, active: bool, key: string) returns (r: Result<Answer<Action>>)
      modifies this`stats, this`actions
      ensures Contents() == AfterSetAction(old(Contents()), t, active, key)
      ensures var open := t.video in videos && videos[t.video].published && t.video in old(stats);
              var again := t in old(actions) && key != "" && old(actions)[t].key == key;
              var was := t in old(actions) && old(actions)[t].active;
              var delta := if again || was == active then 0 else if active then 1 else -1;
              && (!open ==> r == Err(VideoNotFound) && Contents() == old(Contents()))
              && (open ==> actions == if again then old(actions) else old(actions)[t := Action(active, key)])
              && (open ==> forall v | v in stats && v != t.video :: v in old(stats) && stats[v] == old(stats)[v])
              && (open && t.kind == Like ==>
                    t.video in stats &&
                    var n := old(stats)[t.video].likes + delta;
                    && (delta != 0 && n < 0 ==> stats[t.video] == old(stats)[t.video].(likes := 0))
                    && (delta == 0 || n >= 0 ==> stats[t.video] == old(stats)[t.video].(likes := n))
                    && r == Ok(Answer(actions[t], stats[t.video].likes, delta)))
              && (open && t.kind == Favorite ==>
                    t.video in stats &&
                    var n := old(stats)[t.video].favorites + delta;
                    && (delta != 0 && n < 0 ==> stats[t.video] == old(stats)[t.video].(favorites := 0))
                    && (delta == 0 || n >= 0 ==> stats[t.video] == old(stats)[t.video].(favorites := n))
                    && r == Ok(Answer(actions[t], stats[t.video].favorites, delta)))
    {
      if t.video !in videos || !videos[t.video].published || t.video !in stats {
        return Err(VideoNotFound);
      }
      var delta := 0;
      var row: Action;
      if t !in actions {
        // A first cancellation creates a cancelled row too.
        row := Action(active, key);
        actions := actions[t := row];
        if active {
          delta := 1;
        }
      } else {
        row := actions[t];
        if key != "" && row.key == key {
          assert actions[t := row] == actions;
          return Ok(Answer(row, Counter(stats[t.video], ActionField(t.kind)), 0));
        }
        var previous := row;
        if row.active != active {
          delta := if active then 1 else -1;
        }
        row := Action(active, key);
        if previous.active != active || previous.key != key {
          actions := actions[t := row];
        } else {
          assert actions[t := row] == actions;
        }
      }
      var count;
      if delta == 0 {
        count := Counter(stats[t.video], ActionField(t.kind));
      } else {
        count := UpdateCounter(t.video, ActionField(t.kind), delta);
      }
      r := Ok(Answer(row, count, delta));
    }

    method CreateComment(video: int, user: int, key: string) returns (r: Result<Answer<nat>>)
      modifies this`stats, this`comments, this`nextComment
      ensures Contents() == AfterCreateComment(old(Contents()), video, user, key)
      ensures video !in videos || !videos[video].published ==> r == Err(VideoNotFound) && Contents() == old(Contents())
      ensures var again := key != "" && exists id | id in old(comments) ::
                old(comments)[id].user == user && old(comments)[id].key == key;
              var open := video in videos && videos[video].published;
              && (open && again ==>
                    && Contents() == old(Contents())
                    && (r.Ok? ==>
                          && r.value.row in comments && comments[r.value.row].user == user
                          && comments[r.value.row].key == key && comments[r.value.row].video in stats
                          && r.value.count == stats[comments[r.value.row].video].comments && r.value.delta == 0)
                    && (r.Err? ==> r == Err(CommentNotFound))
                    && (r.Err? ==>
                          exists id | id in comments :: comments[id].key == key && comments[id].video !in stats))
              && (open && !again && video !in stats ==> r == Err(VideoNotFound) && Contents() == old(Contents()))
              && (open && !again && video in old(stats) && old(stats)[video].comments >= 0 ==>
                    && comments == old(comments)[old(nextComment) := Comment(video, user, false, key)]
                    && stats == old(stats)[video := old(stats)[video].(comments := old(stats)[video].comments + 1)]
                    && r == Ok(Answer(old(nextComment), old(stats)[video].comments + 1, 1)))
    {
      if video !in videos || !videos[video].published {
        return Err(VideoNotFound);
      }
      if key != "" && exists id | id in comments :: Wrote(comments[id], user, key) {
        var id :| id in comments && Wrote(comments[id], user, key);
        if comments[id].video !in stats {
          return Err(CommentNotFound);
        }
        return Ok(Answer(id, Counter(stats[comments[id].video], Comments), 0));
      }
      if video !in stats {
        return Err(VideoNotFound);
      }
      var id := nextComment;
      comments := comments[id := Comment(video, user, false, key)];
      nextComment := nextComment + 1;
      var count := UpdateCounter(video, Comments, 1);
      r := Ok(Answer(id, count, 1));
    }

    method DeleteComment(id: nat, user: int, admin: bool) returns (r: Result<Answer<nat>>)
      modifies this`stats, this`comments
      ensures Contents() == AfterDeleteComment(old(Contents()), id, user, admin)
      ensures r.Err? ==> old(Contents()) == Contents()
      ensures id !in old(comments) ==> r == Err(CommentNotFound)
      ensures id in old(comments) && old(comments)[id].video !in videos ==> r == Err(VideoNotFound)
      ensures id in old(comments) && old(comments)[id].video in videos ==>
                var c := old(comments)[id];
                var allowed := user == c.user || user == videos[c.video].author || admin;
                && (!allowed ==> r == Err(PermissionDenied))
                && (allowed && c.video !in old(stats) ==> r == Err(VideoNotFound))
                && (allowed && c.video in old(stats) && c.deleted ==>
                      Contents() == old(Contents()) && r == Ok(Answer(id, stats[c.video].comments, 0)))
                && (allowed && c.video in old(stats) && !c.deleted ==>
                      && comments == old(comments)[id := c.(deleted := true)]
                      && c.video in stats && r == Ok(Answer(id, stats[c.video].comments, -1))
                      && (old(stats)[c.video].comments > 0 ==>
                            stats[c.video].comments == old(stats)[c.video].comments - 1)
                      && (old(stats)[c.video].comments <= 0 ==> stats[c.video].comments == 0))
    {
      if id !in comments {
        return Err(CommentNotFound);
      }
      var c := comments[id];
      if c.video !in videos {
        return Err(VideoNotFound);
      }
      if c.user != user && videos[c.video].author != user && !admin {
        return Err(PermissionDenied);
      }
      if c.video !in stats {
        return Err(VideoNotFound);
      }
      if c.deleted {
        return Ok(Answer(id, Counter(stats[c.video], Comments), 0));
      }
      comments := comments[id := c.(deleted := true)];
      var count := UpdateCounter(c.video, Comments, -1);
      r := Ok(Answer(id, count, -1));
    }
  }

  // ---------------------------------------------------------------------------------------------
  // Counts and rows
  // ---------------------------------------------------------------------------------------------

  /** The active rows of a video, apart from those of the targets left out. */
  function ActiveTargets(actions: map<Target, Action>, leftOut: set<Target>, video: int, kind: Kind): set<Target> {
    set t | t in actions && t !in leftOut && t.video == video && t.kind == kind && actions[t].active
  }

  function LiveComments(comments: map<nat, Comment>, video: int): set<nat> {
    set id | id in comments && comments[id].video == video && !comments[id].deleted
  }

  lemma ActiveTargetsAfter(actions: map<Target, Action>, leftOut: set<Target>, t: Target, active: bool, key: string,
                           video: int, kind: Kind)
    requires t !in leftOut
    ensures var stored := Stored(actions, t);
            var after := actions[t := ActionRow(stored, active, key)];
            |ActiveTargets(after, leftOut, video, kind)| == |ActiveTargets(actions, leftOut, video, kind)| +
              if t.video == video && t.kind == kind then ActionDelta(stored, active, key) else 0
  {
    var stored := Stored(actions, t);
    var before := ActiveTargets(actions, leftOut, video, kind);
    var after := ActiveTargets(actions[t := ActionRow(stored, active, key)], leftOut, video, kind);
    if t.video != video || t.kind != kind || ActionDelta(stored, active, key) == 0 {
      assert after == before;
    } else if active {
      assert after == before + {t} && t !in before;
    } else {
      assert after == before - {t} && t in before;
    }
  }

  /** Both counts are what they were before plus the numbers of active rows, those left out apart. */
  ghost predicate Tallies(db: Db, before: map<int, Stat>, leftOut: set<Target>) {
    db.stats.Keys == before.Keys &&
    forall v | v in db.stats :: TalliesAt(db, before[v], leftOut, v)
  }

  ghost predicate TalliesAt(db: Db, before: Stat, leftOut: set<Target>, v: int)
    requires v in db.stats
  {
    && before.likes >= 0 && before.favorites >= 0
    && db.stats[v].likes == before.likes + |ActiveTargets(db.actions, leftOut, v, Like)|
    && db.stats[v].favorites == before.favorites + |ActiveTargets(db.actions, leftOut, v, Favorite)|
  }

  /**
   Setting an action keeps both counts of every video equal to what was there before plus the number of
   active rows; the clamp at zero does nothing.
   */
  lemma SetActionTallies(db: Db, before: map<int, Stat>, leftOut: set<Target>, t: Target, active: bool, key: string)
    requires Tallies(db, before, leftOut) && t !in leftOut
    ensures Tallies(AfterSetAction(db, t, active, key), before, leftOut)
    ensures CanAct(db, t.video) ==>
              var delta := ActionDelta(Stored(db.actions, t), active, key);
              && (t.kind == Like ==> db.stats[t.video].likes + delta >= 0)
              && (t.kind == Favorite ==> db.stats[t.video].favorites + delta >= 0)
  {
    hide ActiveTargets;
    var after := AfterSetAction(db, t, active, key);
    if CanAct(db, t.video) {
      forall v | v in after.stats ensures TalliesAt(after, before[v], leftOut, v) {
        assert TalliesAt(db, before[v], leftOut, v) && TalliesAt(db, before[t.video], leftOut, t.video);
        ActiveTargetsAfter(db.actions, leftOut, t, active, key, v, Like);
        ActiveTargetsAfter(db.actions, leftOut, t, active, key, v, Favorite);
      }
      assert TalliesAt(db, before[t.video], leftOut, t.video);
      ActiveTargetsAfter(db.actions, leftOut, t, active, key, t.video, t.kind);
    }
  }

  /** The stored counts are the numbers of active likes, active favourites and comments not deleted. */
  ghost predicate Exact(db: Db) {
    && (forall v | v in db.stats :: ExactAt(db, v))
    && (forall id | id in db.comments :: id < db.nextComment)
  }

  ghost predicate ExactAt(db: Db, v: int)
    requires v in db.stats
  {
    && db.stats[v].likes == |ActiveTargets(db.actions, {}, v, Like)|
    && db.stats[v].favorites == |ActiveTargets(db.actions, {}, v, Favorite)|
    && db.stats[v].comments == |LiveComments(db.comments, v)|
  }

  datatype Operation =
    | Set(target: Target, active: bool, key: string)
    | Create(video: int, user: int, key: string)
    | Delete(id: nat, user: int, admin: bool)
    | AddVideo(video: int, author: int)
    | SetStatus(video: int, published: bool)

  /** A video's id is one that nothing has ever referred to. */
  predicate IsNew(db: Db, video: int) {
    && video !in db.videos && video !in db.stats
    && (forall t | t in db.actions :: t.video != video)
    && (forall id | id in db.comments :: db.comments[id].video != video)
  }

  function Applied(db: Db, op: Operation): Db {
    match op
    case Set(t, active, key) => AfterSetAction(db, t, active, key)
    case Create(video, user, key) => AfterCreateComment(db, video, user, key)
    case Delete(id, user, admin) => AfterDeleteComment(db, id, user, admin)
    case AddVideo(video, author) =>
      if !IsNew(db, video) then db
      else db.(videos := db.videos[video := Video(author, true)], stats := db.stats[video := Stat(0, 0, 0)])
    case SetStatus(video, published) =>
      // Taking a video offline, and bringing it back.
      if video !in db.videos then db else db.(videos := db.videos[video := db.videos[video].(published := published)])
  }

  function AppliedAll(db: Db, ops: seq<Operation>): Db
    decreases |ops|
  {
    if ops == [] then db else AppliedAll(Applied(db, ops[0]), ops[1..])
  }

  /** The operation as it would be if nothing were clamped at zero. */
  function AppliedUnclamped(db: Db, op: Operation): Db {
    var after := Applied(db, op);
    if after == db then db
    else
      match op
      case Set(t, active, key) =>
        var delta := ActionDelta(Stored(db.actions, t), active, key);
        if delta == 0 || t.video !in db.stats then after
        else after.(stats := db.stats[t.video := WithCounter(db.stats[t.video], ActionField(t.kind),
                                                              Counter(db.stats[t.video], ActionField(t.kind)) + delta)])
      case Create(video, _, _) =>
        if video !in db.stats then after
        else after.(stats := db.stats[video := db.stats[video].(comments := db.stats[video].comments + 1)])
      case Delete(id, _, _) =>
        if id !in db.comments || db.comments[id].video !in db.stats then after
        else
          var v := db.comments[id].video;
          after.(stats := db.stats[v := db.stats[v].(comments := db.stats[v].comments - 1)])
      case _ => after
  }

  lemma SetKeepsExact(db: Db, t: Target, active: bool, key: string)
    requires Exact(db)
    ensures Exact(AfterSetAction(db, t, active, key))
    ensures AfterSetAction(db, t, active, key) == AppliedUnclamped(db, Set(t, active, key))
  {
    var zero := map v | v in db.stats :: Stat(0, 0, 0);
    assert forall v | v in db.stats :: ExactAt(db, v) && TalliesAt(db, zero[v], {}, v);
    SetActionTallies(db, zero, {}, t, active, key);
    var after := AfterSetAction(db, t, active, key);
    forall v | v in after.stats ensures ExactAt(after, v) {
      assert TalliesAt(after, zero[v], {}, v) && ExactAt(db, v);
    }
  }

  lemma CommentsAfter(comments: map<nat, Comment>, id: nat, c: Comment, v: int)
    requires id in comments ==> comments[id].video == c.video
    ensures var before, after := LiveComments(comments, v), LiveComments(comments[id := c], v);
            after == if c.video != v then before else if c.deleted then before - {id} else before + {id}
  {
  }

  /** Exactness after a step that leaves the actions and their counts alone. */
  lemma CommentStepKeepsExact(db: Db, after: Db)
    requires Exact(db) && after.actions == db.actions && after.stats.Keys == db.stats.Keys
    requires forall v | v in db.stats ::
               after.stats[v].likes == db.stats[v].likes && after.stats[v].favorites == db.stats[v].favorites
    requires forall v | v in after.stats :: after.stats[v].comments == |LiveComments(after.comments, v)|
    requires forall id | id in after.comments :: id < after.nextComment
    ensures Exact(after)
  {
    forall v | v in after.stats ensures ExactAt(after, v) {
      assert ExactAt(db, v);
    }
  }

  lemma CreateKeepsExact(db: Db, video: int, user: int, key: string)
    requires Exact(db)
    ensures Exact(AfterCreateComment(db, video, user, key))
    ensures AfterCreateComment(db, video, user, key) == AppliedUnclamped(db, Create(video, user, key))
  {
    hide ActiveTargets, Collides, LiveComments;
    var after := AfterCreateComment(db, video, user, key);
    forall v | v in after.stats ensures after.stats[v].comments == |LiveComments(after.comments, v)| {
      assert ExactAt(db, v);
      NewCommentCounts(db, Comment(video, user, false, key), v);
    }
    CommentStepKeepsExact(db, after);
  }

  lemma NewCommentCounts(db: Db, c: Comment, v: int)
    requires Exact(db) && !c.deleted
    ensures |LiveComments(db.comments[db.nextComment := c], v)| ==
            |LiveComments(db.comments, v)| + if c.video == v then 1 else 0
  {
    CommentsAfter(db.comments, db.nextComment, c, v);
    assert db.nextComment !in LiveComments(db.comments, v);
  }

  lemma DeleteKeepsExact(db: Db, id: nat, user: int, admin: bool)
    requires Exact(db)
    ensures Exact(AfterDeleteComment(db, id, user, admin))
    ensures AfterDeleteComment(db, id, user, admin) == AppliedUnclamped(db, Delete(id, user, admin))
  {
    hide ActiveTargets;
    var after := AfterDeleteComment(db, id, user, admin);
    if after != db {
      var c := db.comments[id];
      assert id in LiveComments(db.comments, c.video);
      forall v | v in after.stats ensures after.stats[v].comments == |LiveComments(after.comments, v)| {
        assert ExactAt(db, v);
        CommentsAfter(db.comments, id, c.(deleted := true), v);
      }
      CommentStepKeepsExact(db, after);
    }
  }

  lemma AddVideoKeepsExact(db: Db, video: int, author: int)
    requires Exact(db)
    ensures Exact(Applied(db, AddVideo(video, author)))
    ensures Applied(db, AddVideo(video, author)) == AppliedUnclamped(db, AddVideo(video, author))
  {
    var after := Applied(db, AddVideo(video, author));
    if IsNew(db, video) {
      assert LiveComments(db.comments, video) == {};
      assert ActiveTargets(db.actions, {}, video, Like) == {} && ActiveTargets(db.actions, {}, video, Favorite) == {};
      forall v | v in after.stats ensures ExactAt(after, v) {
        assert v != video ==> ExactAt(db, v);
      }
    }
  }

  lemma StatusKeepsExact(db: Db, video: int, published: bool)
    requires Exact(db)
    ensures Exact(Applied(db, SetStatus(video, published)))
    ensures Applied(db, SetStatus(video, published)) == AppliedUnclamped(db, SetStatus(video, published))
  {
    var after := Applied(db, SetStatus(video, published));
    forall v | v in after.stats ensures ExactAt(after, v) {
      assert ExactAt(db, v);
    }
  }

  /**
   After any sequence of operations, publications and changes of status the stored like, favourite and
   comment counts are the numbers of active rows.
   */
  lemma {:induction false} CountsAreExact(db: Db, ops: seq<Operation>)
    requires Exact(db)
    ensures Exact(AppliedAll(db, ops))
    decreases |ops|
  {
    hide Exact, Applied;
    if ops != [] {
      OperationKeepsExact(db, ops[0]);
      CountsAreExact(Applied(db, ops[0]), ops[1..]);
    }
  }

  /** From exact counts no operation is changed by the clamp at zero. */
  lemma OperationKeepsExact(db: Db, op: Operation)
    requires Exact(db)
    ensures Exact(Applied(db, op))
    ensures Applied(db, op) == AppliedUnclamped(db, op)
  {
    hide Exact, AppliedUnclamped, AfterSetAction, AfterCreateComment, AfterDeleteComment;
    match op {
      case Set(t, active, key) => SetKeepsExact(db, t, active, key);
      case Create(video, user, key) => CreateKeepsExact(db, video, user, key);
      case Delete(id, user, admin) => DeleteKeepsExact(db, id, user, admin);
      case AddVideo(video, author) => AddVideoKeepsExact(db, video, author);
      case SetStatus(video, published) => StatusKeepsExact(db, video, published);
    }
  }

  // ---------------------------------------------------------------------------------------------
  // Whatever the counts were
  // ---------------------------------------------------------------------------------------------

  ghost predicate NoneNegative(db: Db) {
    forall v | v in db.stats :: db.stats[v].likes >= 0 && db.stats[v].favorites >= 0 && db.stats[v].comments >= 0
  }

  /** Even from counts that are wrong, none ever falls below zero. */
  lemma {:induction false} NeverNegative(db: Db, ops: seq<Operation>)
    requires NoneNegative(db)
    ensures NoneNegative(AppliedAll(db, ops))
    decreases |ops|
  {
    if ops != [] {
      OperationKeepsNonNegative(db, ops[0]);
      NeverNegative(Applied(db, ops[0]), ops[1..]);
    }
  }

  lemma OperationKeepsNonNegative(db: Db, op: Operation)
    requires NoneNegative(db)
    ensures NoneNegative(Applied(db, op))
  {
  }
}
