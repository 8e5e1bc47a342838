/**
 The migration of a legacy database into the core tables, the views that read them back, and the digest
 that compares the two (backend/core_migration.go). Instants are numbers; ZERO_TIME is the unset instant.
 A column that the legacy schema leaves nullable is an Option; reading its NULL gives the zero value.
 */
module CoreMigration {
  import opened DigestFraming
  import opened Options

  const BATCH: nat := 200
  const ZERO_TIME: int := 0

  const TWO_63: int := 0x8000_0000_0000_0000
  const TWO_64: int := 0x1_0000_0000_0000_0000

  type UInt64 = n: int | 0 <= n < TWO_64

  /** The conversion keeps the bits. */
  function ToInt64(n: UInt64): int {
    if n < TWO_63 then n else n - TWO_64
  }

  lemma SameBits(m: UInt64, n: UInt64)
    ensures ToInt64(m) == ToInt64(n) <==> m == n
    ensures ToInt64(n) == n <==> n < TWO_63
  {
  }

  /**
   What an insertion supplies for a value that is not set: the time, and the next id of each table. A row
   read with primary key 0 counts as not set.
   */
  datatype Supply = Supply(now: int, account: int, video: int, stat: int, action: int, comment: int, follow: int,
                           message: int)

  predicate Proper(e: Supply) {
    && e.now != ZERO_TIME && e.account > 0 && e.video > 0 && e.stat > 0 && e.action > 0 && e.comment > 0
    && e.follow > 0 && e.message > 0
  }

  function Key(id: UInt64, next: int): int {
    if id == 0 then next else ToInt64(id)
  }

  function Text(column: Option<string>): string {
    if column.Some? then column.value else ""
  }

  function Instant(column: Option<int>): int {
    if column.Some? then column.value else ZERO_TIME
  }

  function Created(column: Option<int>, now: int): int {
    if Instant(column) == ZERO_TIME then now else Instant(column)
  }

  // ---------------------------------------------------------------------------------------------
  // Legacy rows
  // ---------------------------------------------------------------------------------------------

  datatype User = User(id: UInt64, username: string, passwordHash: string,
                       bio: Option<string>, avatarUrl: Option<string>,
                       createdAt: Option<int>)

  datatype Video = Video(id: UInt64, userId: UInt64, title: string, description: Option<string>,
                         filePath: string, size: int,
                         coverPath: Option<string>, likes: int, comments: int, popularity: real,
                         publishedAt: Option<int>,
                         createdAt: Option<int>)

  datatype Like = Like(id: UInt64, userId: UInt64, videoId: UInt64, createdAt: Option<int>)

  datatype Comment = Comment(id: UInt64, userId: UInt64, videoId: UInt64, body: string, createdAt: Option<int>)

  datatype Follow = Follow(id: UInt64, followerId: UInt64, followingId: UInt64, createdAt: Option<int>)

  datatype Notification = Notification(id: UInt64, userId: UInt64, actorId: Option<UInt64>, videoId: Option<UInt64>,
                                       kind: string, body: Option<string>, readAt: Option<int>, createdAt: Option<int>)

  // ---------------------------------------------------------------------------------------------
  // Core rows
  // ---------------------------------------------------------------------------------------------

  datatype Account = Account(id: int, account: string, nickname: string, password: string,
                             bio: string, avatarUrl: string,
                             status: int, role: string, createdAt: int, updatedAt: int)

  datatype CoreVideo = CoreVideo(id: int, authorId: int, title: string, description: string, mediaUrl: string,
                                 coverUrl: string, status: int, publishedAt: int, createdAt: int, updatedAt: int,
                                 filePath: string, coverPath: string, size: int)

  datatype VideoStat = VideoStat(videoId: int, likeCount: int, commentCount: int, favoriteCount: int)

  datatype Action = Action(id: int, userId: int, videoId: int, actionType: string, status: int, createdAt: int)

  datatype CoreComment = CoreComment(id: int, userId: int, videoId: int, content: string, status: int, createdAt: int)

  datatype CoreFollow = CoreFollow(id: int, userId: int, targetUserId: int, status: int, createdAt: int)

  datatype Message = Message(id: int, userId: int, actorId: int, videoId: Option<UInt64>, kind: string, title: string,
                             content: string, isRead: bool, readAt: Option<int>, createdAt: int)

  function MediaUrl(path: string): string {
    if path == "" then "" else "/media/" + path
  }

  function ToAccount(u: User, e: Supply): Account {
    Account(Key(u.id, e.account), u.username, u.username, u.passwordHash, Text(u.bio), Text(u.avatarUrl), 1, "user",
            Created(u.createdAt, e.now), Created(u.createdAt, e.now))
  }

  function ToVideo(v: Video, e: Supply): CoreVideo {
    CoreVideo(Key(v.id, e.video), ToInt64(v.userId), v.title, Text(v.description), "/media/" + v.filePath,
              MediaUrl(Text(v.coverPath)), 2, Instant(v.publishedAt),
              Created(v.createdAt, e.now), Created(v.createdAt, e.now),
              v.filePath, Text(v.coverPath), v.size)
  }

  function ToStat(v: Video, e: Supply): VideoStat {
    VideoStat(Key(v.id, e.stat), v.likes, v.comments, 0)
  }

  function ToAction(l: Like, e: Supply): Action {
    Action(Key(l.id, e.action), ToInt64(l.userId), ToInt64(l.videoId), "like", 1, Created(l.createdAt, e.now))
  }

  function ToComment(c: Comment, e: Supply): CoreComment {
    CoreComment(Key(c.id, e.comment), ToInt64(c.userId), ToInt64(c.videoId), c.body, 1, Created(c.createdAt, e.now))
  }

  function ToFollow(f: Follow, e: Supply): CoreFollow {
    CoreFollow(Key(f.id, e.follow), ToInt64(f.followerId), ToInt64(f.followingId), 1, Created(f.createdAt, e.now))
  }

  function ToMessage(n: Notification, e: Supply): Message {
    Message(Key(n.id, e.message), ToInt64(n.userId), if n.actorId.Some? then ToInt64(n.actorId.value) else 0, n.videoId,
            n.kind, n.kind, Text(n.body), n.readAt.Some?, n.readAt, Created(n.createdAt, e.now))
  }

  // The conversions handed to the copying loop.

  function AsAccount(e: Supply): User -> Account { (u: User) => ToAccount(u, e) }

  function AsVideo(e: Supply): Video -> CoreVideo { (v: Video) => ToVideo(v, e) }

  function AsStat(e: Supply): Video -> VideoStat { (v: Video) => ToStat(v, e) }

  function AsAction(e: Supply): Like -> Action { (l: Like) => ToAction(l, e) }

  function AsComment(e: Supply): Comment -> CoreComment { (c: Comment) => ToComment(c, e) }

  function AsFollow(e: Supply): Follow -> CoreFollow { (f: Follow) => ToFollow(f, e) }

  function AsMessage(e: Supply): Notification -> Message { (n: Notification) => ToMessage(n, e) }

  function Mapped<S, D>(rows: seq<S>, convert: S -> D): (r: seq<D>)
    ensures |r| == |rows|
  {
    seq(|rows|, i requires 0 <= i < |rows| => convert(rows[i]))
  }

  /** Reads the source in batches and creates each converted batch in the target. */
  method TransformRows<S, D>(source: seq<S>, convert: S -> D) returns (target: seq<D>)
    ensures target == Mapped(source, convert)
  {
    target := [];
    var at := 0;
    while at < |source|
      invariant 0 <= at <= |source| && target == Mapped(source[..at], convert)
    {
      var end := if at + BATCH < |source| then at + BATCH else |source|;
      var batch := source[at..end];
      var out: seq<D> := [];
      for i := 0 to |batch|
        invariant out == Mapped(batch[..i], convert)
      {
        out := out + [convert(batch[i])];
      }
      assert batch[..|batch|] == batch;
      if |out| != 0 {
        target := target + out;
      }
      at := end;
    }
    assert source[..|source|] == source;
  }

  // ---------------------------------------------------------------------------------------------
  // What the views show: the columns that are verified
  // ---------------------------------------------------------------------------------------------

  datatype UserRow = UserRow(id: int, username: string, passwordHash: string,
                             bio: Option<string>, avatarUrl: Option<string>,
                             createdAt: Option<int>)

  datatype VideoRow = VideoRow(id: int, userId: int, title: string, description: Option<string>,
                               filePath: string, size: int,
                               coverPath: Option<string>, likes: int, comments: int, publishedAt: Option<int>,
                               createdAt: Option<int>)

  datatype LikeRow = LikeRow(id: int, userId: int, videoId: int, createdAt: Option<int>)

  datatype CommentRow = CommentRow(id: int, userId: int, videoId: int, body: string, createdAt: Option<int>)

  datatype FollowRow = FollowRow(id: int, followerId: int, followingId: int, createdAt: Option<int>)

  datatype NotificationRow = NotificationRow(id: int, userId: int, actorId: Option<int>,
                                             videoId: Option<UInt64>, kind: string,
                                             body: Option<string>, readAt: Option<int>, createdAt: Option<int>)

  function UserColumns(u: User): UserRow {
    UserRow(u.id, u.username, u.passwordHash, u.bio, u.avatarUrl, u.createdAt)
  }

  function VideoColumns(v: Video): VideoRow {
    VideoRow(v.id, v.userId, v.title, v.description, v.filePath, v.size, v.coverPath, v.likes, v.comments,
             v.publishedAt, v.createdAt)
  }

  function LikeColumns(l: Like): LikeRow {
    LikeRow(l.id, l.userId, l.videoId, l.createdAt)
  }

  function CommentColumns(c: Comment): CommentRow {
    CommentRow(c.id, c.userId, c.videoId, c.body, c.createdAt)
  }

  function FollowColumns(f: Follow): FollowRow {
    FollowRow(f.id, f.followerId, f.followingId, f.createdAt)
  }

  function NotificationColumns(n: Notification): NotificationRow {
    NotificationRow(n.id, n.userId, if n.actorId.Some? then Some(n.actorId.value) else None,
                    n.videoId, n.kind, n.body, n.readAt,
                    n.createdAt)
  }

  function UserId(r: UserRow): int { r.id }

  function VideoId(r: VideoRow): int { r.id }

  function LikeId(r: LikeRow): int { r.id }

  function CommentId(r: CommentRow): int { r.id }

  function FollowId(r: FollowRow): int { r.id }

  function NotificationId(r: NotificationRow): int { r.id }

  // A view: the rows that satisfy its condition, each shown by its select list, read in order of id.

  function Selected<S, D>(rows: seq<S>, where_: S -> bool, show: S -> D): seq<D> {
    if rows == [] then []
    else (if where_(rows[0]) then [show(rows[0])] else []) + Selected(rows[1..], where_, show)
  }

  function Placed<D>(r: seq<D>, x: D, id: D -> int): (q: seq<D>)
    ensures multiset(q) == multiset(r) + multiset{x}
  {
    if r == [] || id(x) <= id(r[0]) then [x] + r
    else
      assert r == [r[0]] + r[1..];
      [r[0]] + Placed(r[1..], x, id)
  }

  function InOrder<D>(rows: seq<D>, id: D -> int): (q: seq<D>)
    ensures multiset(q) == multiset(rows)
  {
    if rows == [] then []
    else
      assert rows == [rows[0]] + rows[1..];
      Placed(InOrder(rows[1..], id), rows[0], id)
  }

  function Anyone(): Account -> bool {
    (a: Account) => true
  }

  function ShowUser(): Account -> UserRow {
    (a: Account) => UserRow(a.id, a.account, a.password, Some(a.bio), Some(a.avatarUrl), Some(a.createdAt))
  }

  function IsPublished(): CoreVideo -> bool {
    (v: CoreVideo) => v.status == 2
  }

  function FindStat(stats: seq<VideoStat>, video: int): Option<VideoStat> {
    if stats == [] then None else if stats[0].videoId == video then Some(stats[0]) else FindStat(stats[1..], video)
  }

  /** The left join: a video without a statistics row has zero counts. */
  function StatOf(stats: seq<VideoStat>, video: int): VideoStat {
    match FindStat(stats, video)
    case Some(s) => s
    case None => VideoStat(video, 0, 0, 0)
  }

  function ShowVideo(stats: seq<VideoStat>): CoreVideo -> VideoRow {
    (v: CoreVideo) =>
      VideoRow(v.id, v.authorId, v.title, Some(v.description), v.filePath, v.size, Some(v.coverPath),
               StatOf(stats, v.id).likeCount, StatOf(stats, v.id).commentCount, Some(v.publishedAt), Some(v.createdAt))
  }

  function IsActiveLike(): Action -> bool {
    (a: Action) => a.actionType == "like" && a.status == 1
  }

  function ShowLike(): Action -> LikeRow {
    (a: Action) => LikeRow(a.id, a.userId, a.videoId, Some(a.createdAt))
  }

  function IsNormal(): CoreComment -> bool {
    (c: CoreComment) => c.status == 1
  }

  function ShowComment(): CoreComment -> CommentRow {
    (c: CoreComment) => CommentRow(c.id, c.userId, c.videoId, c.content, Some(c.createdAt))
  }

  function IsActiveFollow(): CoreFollow -> bool {
    (f: CoreFollow) => f.status == 1
  }

  function ShowFollow(): CoreFollow -> FollowRow {
    (f: CoreFollow) => FollowRow(f.id, f.userId, f.targetUserId, Some(f.createdAt))
  }

  function AnyMessage(): Message -> bool {
    (m: Message) => true
  }

  function ShowNotification(): Message -> NotificationRow {
    (m: Message) => NotificationRow(m.id, m.userId, Some(m.actorId), m.videoId, m.kind, Some(m.content), m.readAt,
                                    Some(m.createdAt))
  }

  // ---------------------------------------------------------------------------------------------
  // A legacy database, its migration and its verification
  // ---------------------------------------------------------------------------------------------

  /** Every table in order of its primary key. */
  datatype Legacy = Legacy(users: seq<User>, videos: seq<Video>, likes: seq<Like>, comments: seq<Comment>,
                           follows: seq<Follow>, notifications: seq<Notification>)

  datatype Core = Core(accounts: seq<Account>, videos: seq<CoreVideo>, stats: seq<VideoStat>, actions: seq<Action>,
                       comments: seq<CoreComment>, follows: seq<CoreFollow>, messages: seq<Message>)

  /** The rows of the verified columns, table by table. */
  datatype Verified = Verified(users: seq<UserRow>, videos: seq<VideoRow>, likes: seq<LikeRow>,
                               comments: seq<CommentRow>,
                               follows: seq<FollowRow>, notifications: seq<NotificationRow>)

  function Migrated(s: Legacy, e: Supply): Core {
    Core(Mapped(s.users, AsAccount(e)),
         Mapped(s.videos, AsVideo(e)),
         Mapped(s.videos, AsStat(e)),
         Mapped(s.likes, AsAction(e)),
         Mapped(s.comments, AsComment(e)),
         Mapped(s.follows, AsFollow(e)),
         Mapped(s.notifications, AsMessage(e)))
  }

  function Views(t: Core): Verified {
    Verified(InOrder(Selected(t.accounts, Anyone(), ShowUser()), UserId),
             InOrder(Selected(t.videos, IsPublished(), ShowVideo(t.stats)), VideoId),
             InOrder(Selected(t.actions, IsActiveLike(), ShowLike()), LikeId),
             InOrder(Selected(t.comments, IsNormal(), ShowComment()), CommentId),
             InOrder(Selected(t.follows, IsActiveFollow(), ShowFollow()), FollowId),
             InOrder(Selected(t.messages, AnyMessage(), ShowNotification()), NotificationId))
  }

  function Source(s: Legacy): Verified {
    Verified(Mapped(s.users, UserColumns), Mapped(s.videos, VideoColumns), Mapped(s.likes, LikeColumns),
             Mapped(s.comments, CommentColumns), Mapped(s.follows, FollowColumns),
             Mapped(s.notifications, NotificationColumns))
  }

  method CopyCoreData(s: Legacy, e: Supply) returns (t: Core)
    ensures t == Migrated(s, e)
  {
    var accounts := TransformRows(s.users, AsAccount(e));
    var videos := TransformRows(s.videos, AsVideo(e));
    var stats := TransformRows(s.videos, AsStat(e));
    var actions := TransformRows(s.likes, AsAction(e));
    var comments := TransformRows(s.comments, AsComment(e));
    var follows := TransformRows(s.follows, AsFollow(e));
    var messages := TransformRows(s.notifications, AsMessage(e));
    t := Core(accounts, videos, stats, actions, comments, follows, messages);
  }

  // ---------------------------------------------------------------------------------------------
  // What the views do not show
  // ---------------------------------------------------------------------------------------------

  /** A migrated account is an ordinary one in use, known by its user name. */
  ghost predicate OrdinaryAccount(a: Account, u: User) {
    a.role == "user" && a.status == 1 && a.account == a.nickname == u.username && a.updatedAt == a.createdAt
  }

  /** A migrated video is published, and its files are under /media/. */
  ghost predicate PublishedVideo(v: CoreVideo, w: Video) {
    && v.status == 2 && v.mediaUrl == "/media/" + w.filePath && v.updatedAt == v.createdAt
    && v.coverUrl == (if w.coverPath.None? || w.coverPath.value == "" then "" else "/media/" + w.coverPath.value)
  }

  /** A migrated message is titled by its kind, and read exactly when the notification had been. */
  ghost predicate SameMessage(m: Message, n: Notification) {
    && m.kind == m.title == n.kind && (m.isRead <==> n.readAt.Some?) && m.readAt == n.readAt
    && m.content == (if n.body.Some? then n.body.value else "")
  }

  /**
   Nobody becomes an administrator, everything is in use, no video is anyone's favourite, and what was read
   stays read.
   */
  lemma ColumnsNotShown(s: Legacy, e: Supply)
    ensures var t := Migrated(s, e);
            && |t.accounts| == |s.users| && |t.videos| == |t.stats| == |s.videos| && |t.actions| == |s.likes|
            && |t.comments| == |s.comments| && |t.follows| == |s.follows| && |t.messages| == |s.notifications|
            && (forall i | 0 <= i < |s.users| :: OrdinaryAccount(t.accounts[i], s.users[i]))
            && (forall i | 0 <= i < |s.videos| :: PublishedVideo(t.videos[i], s.videos[i]))
            && (forall i | 0 <= i < |s.videos| :: t.stats[i].favoriteCount == 0)
            && (forall i | 0 <= i < |s.likes| :: t.actions[i].actionType == "like" && t.actions[i].status == 1)
            && (forall i | 0 <= i < |s.comments| :: t.comments[i].status == 1)
            && (forall i | 0 <= i < |s.follows| :: t.follows[i].status == 1)
            && (forall i | 0 <= i < |s.notifications| :: SameMessage(t.messages[i], s.notifications[i]))
  {
  }

  /** A view has exactly the rows its condition lets through. */
  lemma {:induction false} InView<S, D>(rows: seq<S>, where_: S -> bool, show: S -> D, id: D -> int, x: D)
    ensures x in InOrder(Selected(rows, where_, show), id) <==> exists r | r in rows :: where_(r) && show(r) == x
  {
    SelectedMembers(rows, where_, show, x);
    assert x in multiset(InOrder(Selected(rows, where_, show), id)) <==> x in multiset(Selected(rows, where_, show));
  }

  lemma {:induction false} SelectedMembers<S, D>(rows: seq<S>, where_: S -> bool, show: S -> D, x: D)
    ensures x in Selected(rows, where_, show) <==> exists r | r in rows :: where_(r) && show(r) == x
  {
    if rows != [] {
      SelectedMembers(rows[1..], where_, show, x);
      assert rows == [rows[0]] + rows[1..];
    }
  }

  /** The views hide unpublished videos, deleted comments, cancelled follows and everything but active likes. */
  lemma ViewsHide(t: Core)
    ensures forall r | r in Views(t).videos :: exists v | v in t.videos :: v.status == 2 && v.id == r.id
    ensures forall r | r in Views(t).likes ::
              exists a | a in t.actions :: a.actionType == "like" && a.status == 1 && a.id == r.id
    ensures forall r | r in Views(t).comments :: exists c | c in t.comments :: c.status == 1 && c.id == r.id
    ensures forall r | r in Views(t).follows :: exists f | f in t.follows :: f.status == 1 && f.id == r.id
  {
    forall r | r in Views(t).videos ensures exists v | v in t.videos :: v.status == 2 && v.id == r.id {
      InView(t.videos, IsPublished(), ShowVideo(t.stats), VideoId, r);
    }
    forall r | r in Views(t).likes
      ensures exists a | a in t.actions :: a.actionType == "like" && a.status == 1 && a.id == r.id
    {
      InView(t.actions, IsActiveLike(), ShowLike(), LikeId, r);
    }
    forall r | r in Views(t).comments ensures exists c | c in t.comments :: c.status == 1 && c.id == r.id {
      InView(t.comments, IsNormal(), ShowComment(), CommentId, r);
    }
    forall r | r in Views(t).follows ensures exists f | f in t.follows :: f.status == 1 && f.id == r.id {
      InView(t.follows, IsActiveFollow(), ShowFollow(), FollowId, r);
    }
  }

  // ---------------------------------------------------------------------------------------------
  // Reading the migrated tables back
  // ---------------------------------------------------------------------------------------------

  ghost predicate Ascending<D>(rows: seq<D>, id: D -> int) {
    forall i, j :: 0 <= i < j < |rows| ==> id(rows[i]) < id(rows[j])
  }

  /** The primary keys: what "in order" means for a legacy database. */
  ghost predicate Keyed(s: Legacy) {
    var t := Source(s);
    && Ascending(t.users, UserId) && Ascending(t.videos, VideoId) && Ascending(t.likes, LikeId)
    && Ascending(t.comments, CommentId) && Ascending(t.follows, FollowId) && Ascending(t.notifications, NotificationId)
  }

  lemma {:induction false} SelectedAll<S, D>(rows: seq<S>, where_: S -> bool, show: S -> D)
    requires forall i | 0 <= i < |rows| :: where_(rows[i])
    ensures Selected(rows, where_, show) == Mapped(rows, show)
  {
    if rows != [] {
      SelectedAll(rows[1..], where_, show);
      assert Mapped(rows, show) == [show(rows[0])] + Mapped(rows[1..], show);
    }
  }

  lemma {:induction false} InOrderAlready<D>(rows: seq<D>, id: D -> int)
    requires Ascending(rows, id)
    ensures InOrder(rows, id) == rows
  {
    if rows != [] {
      InOrderAlready(rows[1..], id);
      assert rows == [rows[0]] + rows[1..];
    }
  }

  /** What a row's id can become: itself, a negative number, or, when it was not set, one that is. */
  predicate Rekeyed(before: int, after: int) {
    after == before || after < 0 || (before == 0 && after != 0)
  }

  ghost predicate Rekeying<D>(shown: seq<D>, expected: seq<D>, id: D -> int) {
    && |shown| == |expected|
    && (forall i | 0 <= i < |shown| :: id(expected[i]) >= 0 && Rekeyed(id(expected[i]), id(shown[i])))
  }

  /** Rows with the same contents in whatever order have kept their ids. */
  lemma IdsAreKept<D>(shown: seq<D>, expected: seq<D>, id: D -> int)
    requires Ascending(expected, id) && Rekeying(shown, expected, id)
    requires multiset(shown) == multiset(expected)
    ensures forall i | 0 <= i < |shown| :: id(shown[i]) == id(expected[i])
  {
    forall i | 0 <= i < |shown| ensures id(shown[i]) == id(expected[i]) {
      assert shown[i] in multiset(expected);
      assert expected[i] in multiset(shown);
      var j :| 0 <= j < |shown| && shown[j] == expected[i];
      assert Rekeyed(id(expected[j]), id(shown[j])) && Rekeyed(id(expected[i]), id(shown[i]));
    }
  }

  /** Reading rows back in order of id gives what is expected exactly when each row does. */
  lemma ReadBack<D>(shown: seq<D>, expected: seq<D>, id: D -> int)
    requires Ascending(expected, id) && Rekeying(shown, expected, id)
    ensures InOrder(shown, id) == expected <==> forall i | 0 <= i < |shown| :: shown[i] == expected[i]
  {
    if InOrder(shown, id) == expected {
      assert multiset(shown) == multiset(expected);
      IdsAreKept(shown, expected, id);
      forall i | 0 <= i < |shown| ensures shown[i] == expected[i] {
        assert shown[i] in multiset(expected);
        var j :| 0 <= j < |expected| && expected[j] == shown[i];
        assert id(expected[j]) == id(expected[i]);
      }
    }
    if forall i | 0 <= i < |shown| :: shown[i] == expected[i] {
      assert shown == expected;
      InOrderAlready(shown, id);
    }
  }

  /** One table: every row is copied, shown by its view and read back in order of id. */
  lemma TableRoundTrip<S(!new), C, D>(source: seq<S>, convert: S -> C, where_: C -> bool, show: C -> D, columns: S -> D,
                                      id: D -> int, fits: S -> bool)
    requires Ascending(Mapped(source, columns), id)
    requires forall x | x in source ::
               where_(convert(x)) && id(columns(x)) >= 0 && Rekeyed(id(columns(x)), id(show(convert(x))))
    requires forall x | x in source :: show(convert(x)) == columns(x) ==> fits(x)
    requires (forall x | x in source :: fits(x)) ==> forall x | x in source :: show(convert(x)) == columns(x)
    ensures InOrder(Selected(Mapped(source, convert), where_, show), id) == Mapped(source, columns) <==>
            forall x | x in source :: fits(x)
  {
    hide InOrder, Ascending, Selected, Rekeyed;
    var rows, expected := Mapped(source, convert), Mapped(source, columns);
    var shown := Mapped(rows, show);
    SelectedAll(rows, where_, show);
    forall i | 0 <= i < |shown|
      ensures id(expected[i]) >= 0 && Rekeyed(id(expected[i]), id(shown[i]))
      ensures shown[i] == show(convert(source[i])) && expected[i] == columns(source[i])
    {
      assert source[i] in source;
    }
    ReadBack(shown, expected, id);
  }

  // A row comes through when no verified column is NULL (but for a notification's video and reading time),
  // its key and the ids it refers to fit a signed column, its key is set, and so is its creation time.

  predicate Fits(id: UInt64) {
    id < TWO_63
  }

  predicate KeyFits(id: UInt64) {
    id != 0 && Fits(id)
  }

  predicate IsSet(column: Option<int>) {
    column.Some? && column.value != ZERO_TIME
  }

  predicate UserFits(u: User) {
    KeyFits(u.id) && u.bio.Some? && u.avatarUrl.Some? && IsSet(u.createdAt)
  }

  predicate VideoFits(v: Video) {
    && KeyFits(v.id) && Fits(v.userId) && v.description.Some? && v.coverPath.Some?
    && v.publishedAt.Some? && IsSet(v.createdAt)
  }

  predicate LikeFits(l: Like) {
    KeyFits(l.id) && Fits(l.userId) && Fits(l.videoId) && IsSet(l.createdAt)
  }

  predicate CommentFits(c: Comment) {
    KeyFits(c.id) && Fits(c.userId) && Fits(c.videoId) && IsSet(c.createdAt)
  }

  predicate FollowFits(f: Follow) {
    KeyFits(f.id) && Fits(f.followerId) && Fits(f.followingId) && IsSet(f.createdAt)
  }

  predicate NotificationFits(n: Notification) {
    && KeyFits(n.id) && Fits(n.userId) && n.actorId.Some? && Fits(n.actorId.value) && n.body.Some?
    && IsSet(n.createdAt)
  }

  lemma KeyKept(id: UInt64, next: int)
    requires next > 0
    ensures Rekeyed(id, Key(id, next)) && (Key(id, next) == id <==> KeyFits(id))
  {
  }

  lemma UserComesThrough(u: User, e: Supply)
    requires Proper(e)
    ensures var before, after := UserColumns(u), ShowUser()(ToAccount(u, e));
            && Anyone()(ToAccount(u, e)) && UserId(before) >= 0 && Rekeyed(UserId(before), UserId(after))
            && (after == before <==> UserFits(u))
  {
    KeyKept(u.id, e.account);
  }

  lemma UsersRoundTrip(s: Legacy, e: Supply)
    requires Proper(e) && Keyed(s)
    ensures Views(Migrated(s, e)).users == Source(s).users <==> forall u | u in s.users :: UserFits(u)
  {
    forall u | u in s.users { UserComesThrough(u, e); }
    hide UserFits, Rekeyed;
    TableRoundTrip(s.users, AsAccount(e), Anyone(), ShowUser(), UserColumns, UserId, UserFits);
  }

  lemma LikeComesThrough(l: Like, e: Supply)
    requires Proper(e)
    ensures var before, after := LikeColumns(l), ShowLike()(ToAction(l, e));
            && IsActiveLike()(ToAction(l, e)) && LikeId(before) >= 0 && Rekeyed(LikeId(before), LikeId(after))
            && (after == before <==> LikeFits(l))
  {
    KeyKept(l.id, e.action);
  }

  lemma LikesRoundTrip(s: Legacy, e: Supply)
    requires Proper(e) && Keyed(s)
    ensures Views(Migrated(s, e)).likes == Source(s).likes <==> forall l | l in s.likes :: LikeFits(l)
  {
    forall l | l in s.likes { LikeComesThrough(l, e); }
    hide LikeFits, Rekeyed;
    TableRoundTrip(s.likes, AsAction(e), IsActiveLike(), ShowLike(), LikeColumns, LikeId, LikeFits);
  }

  lemma CommentComesThrough(c: Comment, e: Supply)
    requires Proper(e)
    ensures var before, after := CommentColumns(c), ShowComment()(ToComment(c, e));
            && IsNormal()(ToComment(c, e)) && CommentId(before) >= 0 && Rekeyed(CommentId(before), CommentId(after))
            && (after == before <==> CommentFits(c))
  {
    KeyKept(c.id, e.comment);
  }

  lemma CommentsRoundTrip(s: Legacy, e: Supply)
    requires Proper(e) && Keyed(s)
    ensures Views(Migrated(s, e)).comments == Source(s).comments <==> forall c | c in s.comments :: CommentFits(c)
  {
    forall c | c in s.comments { CommentComesThrough(c, e); }
    hide CommentFits, Rekeyed;
    TableRoundTrip(s.comments, AsComment(e), IsNormal(), ShowComment(), CommentColumns, CommentId, CommentFits);
  }

  lemma FollowComesThrough(f: Follow, e: Supply)
    requires Proper(e)
    ensures var before, after := FollowColumns(f), ShowFollow()(ToFollow(f, e));
            && IsActiveFollow()(ToFollow(f, e)) && FollowId(before) >= 0 && Rekeyed(FollowId(before), FollowId(after))
            && (after == before <==> FollowFits(f))
  {
    KeyKept(f.id, e.follow);
  }

  lemma FollowsRoundTrip(s: Legacy, e: Supply)
    requires Proper(e) && Keyed(s)
    ensures Views(Migrated(s, e)).follows == Source(s).follows <==> forall f | f in s.follows :: FollowFits(f)
  {
    forall f | f in s.follows { FollowComesThrough(f, e); }
    hide FollowFits, Rekeyed;
    TableRoundTrip(s.follows, AsFollow(e), IsActiveFollow(), ShowFollow(), FollowColumns, FollowId, FollowFits);
  }

  lemma NotificationComesThrough(n: Notification, e: Supply)
    requires Proper(e)
    ensures var before, after := NotificationColumns(n), ShowNotification()(ToMessage(n, e));
            && AnyMessage()(ToMessage(n, e)) && NotificationId(before) >= 0
            && Rekeyed(NotificationId(before), NotificationId(after))
            && (after == before <==> NotificationFits(n))
  {
    KeyKept(n.id, e.message);
  }

  lemma NotificationsRoundTrip(s: Legacy, e: Supply)
    requires Proper(e) && Keyed(s)
    ensures Views(Migrated(s, e)).notifications == Source(s).notifications <==>
            forall n | n in s.notifications :: NotificationFits(n)
  {
    forall n | n in s.notifications { NotificationComesThrough(n, e); }
    hide NotificationFits, Rekeyed;
    TableRoundTrip(s.notifications, AsMessage(e), AnyMessage(), ShowNotification(),
                   NotificationColumns, NotificationId, NotificationFits);
  }

  predicate DistinctIds(videos: seq<Video>) {
    videos == [] || ((forall v | v in videos[1..] :: v.id != videos[0].id) && DistinctIds(videos[1..]))
  }

  lemma {:induction false} KeyedAreDistinct(videos: seq<Video>)
    requires Ascending(Mapped(videos, VideoColumns), VideoId)
    ensures DistinctIds(videos)
  {
    if videos != [] {
      var rows := Mapped(videos, VideoColumns);
      assert rows[1..] == Mapped(videos[1..], VideoColumns);
      KeyedAreDistinct(videos[1..]);
      forall v | v in videos[1..] ensures v.id != videos[0].id {
        var k :| 0 <= k < |videos[1..]| && videos[1..][k] == v;
        assert rows[0] == VideoColumns(videos[0]) && rows[k + 1] == VideoColumns(v);
        assert VideoId(rows[0]) < VideoId(rows[k + 1]);
      }
    }
  }

  /** The join finds a migrated video's own statistics. */
  lemma {:induction false} StatIsFound(videos: seq<Video>, e: Supply, i: nat)
    requires i < |videos| && DistinctIds(videos) && forall v | v in videos :: v.id != 0
    ensures StatOf(Mapped(videos, AsStat(e)), ToInt64(videos[i].id)) == ToStat(videos[i], e)
  {
    var stats := Mapped(videos, AsStat(e));
    assert stats[1..] == Mapped(videos[1..], AsStat(e));
    assert videos[0].id != 0 && videos[i].id != 0;
    if i != 0 {
      assert videos[1..][i - 1] == videos[i];
      assert videos[i] in videos[1..];
      SameBits(videos[i].id, videos[0].id);
      StatIsFound(videos[1..], e, i - 1);
      FoundFurther(stats, ToInt64(videos[i].id));
    }
  }

  lemma FoundFurther(stats: seq<VideoStat>, video: int)
    requires stats != [] && stats[0].videoId != video
    ensures StatOf(stats, video) == StatOf(stats[1..], video)
  {
  }

  lemma VideoComesThrough(stats: seq<VideoStat>, v: Video, e: Supply)
    requires Proper(e)
    ensures var before, after := VideoColumns(v), ShowVideo(stats)(ToVideo(v, e));
            && IsPublished()(ToVideo(v, e)) && VideoId(before) >= 0 && Rekeyed(VideoId(before), VideoId(after))
            && (after == before ==> VideoFits(v))
            && (VideoFits(v) && StatOf(stats, ToInt64(v.id)) == ToStat(v, e) ==> after == before)
  {
    KeyKept(v.id, e.video);
  }

  lemma VideosRoundTrip(s: Legacy, e: Supply)
    requires Proper(e) && Keyed(s)
    ensures Views(Migrated(s, e)).videos == Source(s).videos <==> forall v | v in s.videos :: VideoFits(v)
  {
    var stats := Mapped(s.videos, AsStat(e));
    forall v | v in s.videos { VideoComesThrough(stats, v, e); }
    if forall v | v in s.videos :: VideoFits(v) {
      KeyedAreDistinct(s.videos);
      forall v | v in s.videos ensures StatOf(stats, ToInt64(v.id)) == ToStat(v, e) {
        var i :| 0 <= i < |s.videos| && s.videos[i] == v;
        StatIsFound(s.videos, e, i);
      }
    }
    hide VideoFits, Rekeyed, StatOf, ToStat;
    TableRoundTrip(s.videos, AsVideo(e), IsPublished(), ShowVideo(stats), VideoColumns, VideoId, VideoFits);
  }

  ghost predicate AllFit(s: Legacy) {
    && (forall u | u in s.users :: UserFits(u)) && (forall v | v in s.videos :: VideoFits(v))
    && (forall l | l in s.likes :: LikeFits(l)) && (forall c | c in s.comments :: CommentFits(c))
    && (forall f | f in s.follows :: FollowFits(f)) && (forall n | n in s.notifications :: NotificationFits(n))
  }

  /**
   Main result. For every legacy database the views over the migrated tables give back the source rows on
   the verified columns exactly when every row fits: no NULL, keys set, ids signed, creation times set.
   */
  lemma ViewsGiveBackTheSource(s: Legacy, e: Supply)
    requires Proper(e) && Keyed(s)
    ensures Views(Migrated(s, e)) == Source(s) <==> AllFit(s)
  {
    hide Keyed, Views, Source, Migrated;
    UsersRoundTrip(s, e);
    VideosRoundTrip(s, e);
    LikesRoundTrip(s, e);
    CommentsRoundTrip(s, e);
    FollowsRoundTrip(s, e);
    NotificationsRoundTrip(s, e);
  }

  // ---------------------------------------------------------------------------------------------
  // The content verification
  // ---------------------------------------------------------------------------------------------

  /** How the driver and the formatting turn a row into the texts of its columns. */
  datatype Rendering = Rendering(
    user: UserRow -> seq<Cell>,
    video: VideoRow -> seq<Cell>,
    like: LikeRow -> seq<Cell>,
    comment: CommentRow -> seq<Cell>,
    follow: FollowRow -> seq<Cell>,
    notification: NotificationRow -> seq<Cell>)

  /** Every row has one text per column, and different rows have different texts. */
  ghost predicate Faithful<R(!new)>(cells: R -> seq<Cell>, width: nat) {
    && width > 0
    && (forall r :: |cells(r)| == width)
    && (forall r, q :: cells(r) == cells(q) ==> r == q)
  }

  ghost predicate AllFaithful(r: Rendering) {
    && Faithful(r.user, 6) && Faithful(r.video, 11) && Faithful(r.like, 4)
    && Faithful(r.comment, 5) && Faithful(r.follow, 4) && Faithful(r.notification, 8)
  }

  predicate SameDigest<R>(a: seq<R>, b: seq<R>, cells: R -> seq<Cell>) {
    Framed(Mapped(a, cells)) == Framed(Mapped(b, cells))
  }

  /** What is compared for the two databases, before hashing. */
  predicate DigestsMatch(a: Verified, b: Verified, r: Rendering) {
    && SameDigest(a.users, b.users, r.user) && SameDigest(a.videos, b.videos, r.video)
    && SameDigest(a.likes, b.likes, r.like) && SameDigest(a.comments, b.comments, r.comment)
    && SameDigest(a.follows, b.follows, r.follow) && SameDigest(a.notifications, b.notifications, r.notification)
  }

  lemma SameDigestIff<R(!new)>(a: seq<R>, b: seq<R>, cells: R -> seq<Cell>, width: nat)
    requires Faithful(cells, width)
    ensures SameDigest(a, b, cells) <==> a == b
  {
    FramingIsInjective(Mapped(a, cells), Mapped(b, cells), width);
    if Mapped(a, cells) == Mapped(b, cells) {
      forall i | 0 <= i < |a| ensures a[i] == b[i] {
        assert Mapped(a, cells)[i] == cells(a[i]) && Mapped(b, cells)[i] == cells(b[i]);
      }
    }
  }

  /**
   Main result. The verification of a migrated database succeeds exactly when every row of the source came
   through. It can neither miss a change nor report a false one.
   */
  lemma VerificationIsExact(s: Legacy, e: Supply, r: Rendering)
    requires Proper(e) && Keyed(s) && AllFaithful(r)
    ensures DigestsMatch(Source(s), Views(Migrated(s, e)), r) <==> AllFit(s)
  {
    hide AllFit, Source, Views, Migrated, Faithful, SameDigest, Keyed;
    var a, b := Source(s), Views(Migrated(s, e));
    ViewsGiveBackTheSource(s, e);
    SameDigestIff(a.users, b.users, r.user, 6);
    SameDigestIff(a.videos, b.videos, r.video, 11);
    SameDigestIff(a.likes, b.likes, r.like, 4);
    SameDigestIff(a.comments, b.comments, r.comment, 5);
    SameDigestIff(a.follows, b.follows, r.follow, 4);
    SameDigestIff(a.notifications, b.notifications, r.notification, 8);
  }

  /**
   A column may be NULL in the legacy schema and still never come through: one user without a biography,
   or one row with key 0, and the verification of the whole database fails.
   */
  lemma NullAndKeyZeroFail(s: Legacy, e: Supply, r: Rendering)
    requires Proper(e) && Keyed(s) && AllFaithful(r)
    requires (exists u | u in s.users :: u.bio.None?) || (exists c | c in s.comments :: c.id == 0)
    ensures !DigestsMatch(Source(s), Views(Migrated(s, e)), r)
  {
    VerificationIsExact(s, e, r);
    assert !AllFit(s) by {
      if exists u | u in s.users :: u.bio.None? {
        var u :| u in s.users && u.bio.None?;
        assert !UserFits(u);
      } else {
        var c :| c in s.comments && c.id == 0;
        assert !CommentFits(c);
      }
    }
  }
}
