/**
 The fast path for likes and favourites: `SetActionState` changes Redis first, an event goes to a queue,
 and a worker later replays the events through the SQL transaction `SetAction`
 (backend/internal/infra/cache/feed_cache.go, backend/internal/application/interaction/service.go).

 Any number of requests run at once; every Redis transaction, SQL transaction, publication and delivery
 is one step, and a request may fail or die at any of them.
 */
module ActionFastPath {
  import opened Counters
  import opened Interaction
  import opened Options

  const SHARDS: nat := 16

  // ---------------------------------------------------------------------------------------------
  // Redis
  // ---------------------------------------------------------------------------------------------

  datatype Shard = Shard(video: int, index: nat, kind: Kind)

  /** Action hashes, the base counters (set once, with HSETNX) and the sharded changes. */
  datatype Redis = Redis(actions: map<Target, Action>, base: map<int, Stat>, shards: map<Shard, int>)

  function ShardIndex(user: int): (i: nat)
    ensures i < SHARDS
  {
    if user <= 0 then 0 else user % SHARDS
  }

  function ShardValue(shards: map<Shard, int>, video: int, index: nat, kind: Kind): int {
    var s := Shard(video, index, kind);
    if s in shards then shards[s] else 0
  }

  function ShardSum(shards: map<Shard, int>, video: int, kind: Kind, n: nat): int {
    if n == 0 then 0 else ShardSum(shards, video, kind, n - 1) + ShardValue(shards, video, n - 1, kind)
  }

  function WithBase(base: map<int, Stat>, video: int, initial: Stat): map<int, Stat> {
    if video in base then base else base[video := initial]
  }

  function Increased(shards: map<Shard, int>, s: Shard, delta: int): map<Shard, int> {
    shards[s := delta + if s in shards then shards[s] else 0]
  }

  function AfterSetActionState(r: Redis, t: Target, active: bool, key: string, initial: Stat): Redis {
    var stored := Stored(r.actions, t);
    var delta := ActionDelta(stored, active, key);
    Redis(r.actions[t := ActionRow(stored, active, key)],
          WithBase(r.base, t.video, initial),
          if delta == 0 then r.shards else Increased(r.shards, Shard(t.video, ShardIndex(t.user), t.kind), delta))
  }

  /** The count before it is clamped at zero. */
  function RawCount(r: Redis, video: int, kind: Kind): int
    requires video in r.base
  {
    match kind
    case Like => r.base[video].likes + ShardSum(r.shards, video, Like, 16)
    case Favorite => r.base[video].favorites + ShardSum(r.shards, video, Favorite, 16)
  }

  /** No initial statistics count as zeros. */
  function OrZeros(initial: Option<Stat>): Stat {
    if initial.Some? then initial.value else Stat(0, 0, 0)
  }

  datatype ActionState = ActionState(active: bool, delta: int, likes: int, favorites: int)

  class RedisStore {
    var actions: map<Target, Action>
    var base: map<int, Stat>
    var shards: map<Shard, int>

    ghost function Contents(): Redis
      reads this
    {
      Redis(actions, base, shards)
    }

    constructor ()
      ensures Contents() == Redis(map[], map[], map[])
    {
      actions, base, shards := map[], map[], map[];
    }

    /** What is shown to clients: the base counters plus all shards, never below zero. */
    method ActionStat(video: int) returns (likes: int, favorites: int)
      requires video in base
      ensures var n := base[video].likes + ShardSum(shards, video, Like, 16);
              likes == if n < 0 then 0 else n
      ensures var n := base[video].favorites + ShardSum(shards, video, Favorite, 16);
              favorites == if n < 0 then 0 else n
    {
      var likeDelta, favoriteDelta := 0, 0;
      for i := 0 to SHARDS
        invariant likeDelta == ShardSum(shards, video, Like, i)
        invariant favoriteDelta == ShardSum(shards, video, Favorite, i)
      {
        if Shard(video, i, Like) in shards {
          likeDelta := likeDelta + shards[Shard(video, i, Like)];
        }
        if Shard(video, i, Favorite) in shards {
          favoriteDelta := favoriteDelta + shards[Shard(video, i, Favorite)];
        }
      }
      likes := Clamp(base[video].likes + likeDelta);
      favorites := Clamp(base[video].favorites + favoriteDelta);
    }

    /** The transaction that watches the action hash. */
    method Update(t: Target, active: bool, key: string, initial: Option<Stat>) returns (effective: bool, delta: int)
      modifies this
      ensures Contents() == AfterSetActionState(old(Contents()), t, active, key, OrZeros(initial))
      ensures var again := t in old(actions) && key != "" && old(actions)[t].key == key;
              var was := t in old(actions) && old(actions)[t].active;
              var shard := Shard(t.video, if t.user <= 0 then 0 else t.user % 16, t.kind);
              && effective == (if again then was else active)
              && delta == (if effective == was then 0 else if effective then 1 else -1)
              && actions == old(actions)[t := Action(effective, key)]
              && base == (if t.video in old(base) then old(base)
                          else old(base)[t.video := if initial.Some? then initial.value else Stat(0, 0, 0)])
              && (delta == 0 ==> shards == old(shards))
              && (delta != 0 ==>
                    shards == old(shards)[shard := delta + if shard in old(shards) then old(shards)[shard] else 0])
    {
      effective, delta := active, 0;
      if t in actions && actions[t].key == key && key != "" {
        effective := actions[t].active;
      } else if t !in actions {
        if active {
          delta := 1;
        }
      } else if actions[t].active != active {
        delta := if active then 1 else -1;
      }
      actions := actions[t := Action(effective, key)];
      if t.video !in base {
        base := base[t.video := OrZeros(initial)];
      }
      if delta != 0 {
        var s := Shard(t.video, ShardIndex(t.user), t.kind);
        shards := shards[s := delta + if s in shards then shards[s] else 0];
      }
    }

    method SetActionState(t: Target, active: bool, key: string, initial: Option<Stat>) returns (state: ActionState)
      modifies this
      ensures Contents() == AfterSetActionState(old(Contents()), t, active, key, OrZeros(initial))
      ensures t.video in base
      ensures t in actions && state.active == actions[t].active
      ensures state.delta == (if t in old(actions) && old(actions)[t].active then 0 else 1) -
                             (if actions[t].active then 0 else 1)
      ensures var n := base[t.video].likes + ShardSum(shards, t.video, Like, 16);
              state.likes == if n < 0 then 0 else n
      ensures var n := base[t.video].favorites + ShardSum(shards, t.video, Favorite, 16);
              state.favorites == if n < 0 then 0 else n
    {
      var effective, delta := Update(t, active, key, initial);
      var likes, favorites := ActionStat(t.video);
      state := ActionState(effective, delta, likes, favorites);
    }
  }

  // ---------------------------------------------------------------------------------------------
  // Requests, the queue and the worker
  // ---------------------------------------------------------------------------------------------

  datatype Event = Event(target: Target, active: bool, key: string)

  /**
   Sending: Redis has changed and the event is to be published. Falling back: publishing has failed, though
   the event may have been routed all the same.
   */
  datatype Phase = Loaded(stat: Stat) | Sending | FallingBack(routed: bool) | Done

  datatype Request = Request(event: Event, phase: Phase)

  /** `order` lists the requests whose change is in Redis and nowhere else yet, in the order they were stored. */
  datatype State = State(db: Db, redis: Redis, queue: seq<Event>, requests: map<nat, Request>, order: seq<nat>)

  datatype Step =
    | Begin(r: nat, event: Event)
    | Store(r: nat)
    | StoreFails(r: nat, written: bool)
    | Publish(r: nat)
    | PublishFails(r: nat, routed: bool)
    | FallBack(r: nat)
    | Die(r: nat)
    | Consume
    | Apply
    | Requeue

  function Start(db: Db): State {
    State(db, Redis(map[], map[], map[]), [], map[], [])
  }

  function Applying(db: Db, e: Event): Db {
    AfterSetAction(db, e.target, e.active, e.key)
  }

  function Move(s: State, r: nat, phase: Phase): State
    requires r in s.requests
  {
    s.(requests := s.requests[r := s.requests[r].(phase := phase)])
  }

  function StoredState(s: State, q: Request): Redis
    requires q.phase.Loaded?
  {
    AfterSetActionState(s.redis, q.event.target, q.event.active, q.event.key, q.phase.stat)
  }

  /** Whether storing the request changes the state, so that an event is due. */
  predicate Flips(redis: Redis, e: Event) {
    ActionDelta(Stored(redis.actions, e.target), e.active, e.key) != 0
  }

  function Removed(order: seq<nat>, r: nat): (q: seq<nat>)
    ensures forall o :: o in q <==> o in order && o != r
  {
    if order == [] then []
    else
      assert order == [order[0]] + order[1..];
      (if order[0] == r then [] else [order[0]]) + Removed(order[1..], r)
  }

  function Next(s: State, step: Step): State {
    match step
    case Begin(r, e) =>
      if r in s.requests then s
      else
        var phase := if CanAct(s.db, e.target.video) then Loaded(s.db.stats[e.target.video]) else Done;
        s.(requests := s.requests[r := Request(e, phase)])
    case Store(r) =>
      if r in s.requests && s.requests[r].phase.Loaded? then
        var flips := Flips(s.redis, s.requests[r].event);
        Move(s, r, if flips then Sending else Done).(
          redis := StoredState(s, s.requests[r]), order := if flips then s.order + [r] else s.order)
      else s
    case StoreFails(r, written) =>
      // An error may also hide a transaction that has been carried out.
      if r in s.requests && s.requests[r].phase.Loaded? then
        Move(s, r, Done).(redis := if written then StoredState(s, s.requests[r]) else s.redis)
      else s
    case Publish(r) =>
      if r in s.requests && s.requests[r].phase.Sending? then
        Move(s, r, Done).(queue := s.queue + [s.requests[r].event], order := Removed(s.order, r))
      else s
    case PublishFails(r, routed) =>
      if r in s.requests && s.requests[r].phase.Sending? then
        Move(s, r, FallingBack(routed)).(
          queue := if routed then s.queue + [s.requests[r].event] else s.queue,
          order := if routed then Removed(s.order, r) else s.order)
      else s
    case FallBack(r) =>
      if r in s.requests && s.requests[r].phase.FallingBack? then
        Move(s, r, Done).(db := Applying(s.db, s.requests[r].event), order := Removed(s.order, r))
      else s
    case Die(r) => if r in s.requests then Move(s, r, Done).(order := Removed(s.order, r)) else s
    case Consume => if s.queue == [] then s else s.(db := Applying(s.db, s.queue[0]), queue := s.queue[1..])
    case Apply =>
      // Applied, but not acknowledged: the event will be delivered again.
      if s.queue == [] then s else s.(db := Applying(s.db, s.queue[0]))
    case Requeue => if s.queue == [] then s else s.(queue := s.queue[1..] + [s.queue[0]])
  }

  function Run(s: State, steps: seq<Step>): State
    decreases |steps|
  {
    if steps == [] then s else Run(Next(s, steps[0]), steps[1..])
  }

  /** The database after the worker has replayed the queue in order. */
  function Replayed(db: Db, queue: seq<Event>): Db
    decreases |queue|
  {
    if queue == [] then db else Replayed(Applying(db, queue[0]), queue[1..])
  }

  // ---------------------------------------------------------------------------------------------
  // Counts, in every run
  // ---------------------------------------------------------------------------------------------

  lemma {:induction false} SumAfter(shards: map<Shard, int>, s: Shard, delta: int, video: int, kind: Kind, n: nat)
    ensures ShardSum(Increased(shards, s, delta), video, kind, n) ==
            ShardSum(shards, video, kind, n) + if s.video == video && s.kind == kind && s.index < n then delta else 0
  {
    if n != 0 {
      SumAfter(shards, s, delta, video, kind, n - 1);
    }
  }

  /** The shards of every video add up to the number of active actions held in Redis. */
  ghost predicate ShardsTally(r: Redis) {
    forall v, k: Kind :: ShardsTallyAt(r, v, k)
  }

  ghost predicate ShardsTallyAt(r: Redis, v: int, k: Kind) {
    ShardSum(r.shards, v, k, SHARDS) == |ActiveTargets(r.actions, {}, v, k)|
  }

  lemma StoringTallies(r: Redis, t: Target, active: bool, key: string, initial: Stat)
    requires ShardsTally(r)
    ensures ShardsTally(AfterSetActionState(r, t, active, key, initial))
  {
    var after := AfterSetActionState(r, t, active, key, initial);
    var delta := ActionDelta(Stored(r.actions, t), active, key);
    forall v, k: Kind ensures ShardsTallyAt(after, v, k) {
      assert ShardsTallyAt(r, v, k);
      ActiveTargetsAfter(r.actions, {}, t, active, key, v, k);
      SumAfter(r.shards, Shard(t.video, ShardIndex(t.user), t.kind), delta, v, k, SHARDS);
    }
  }

  /** The target had no row when the run started, and its video can be acted on. */
  ghost predicate Fresh(start: Db, e: Event) {
    e.target !in start.actions && CanAct(start, e.target.video)
  }

  ghost predicate InFlight(q: Request) {
    q.phase.Sending? || q.phase.FallingBack?
  }

  /** Nothing has been written yet about a video whose base counters are not set. */
  ghost predicate Untouched(start: Db, s: State, v: int) {
    && (v in start.stats && v in s.db.stats ==> s.db.stats[v] == start.stats[v])
    && (forall e | e in s.queue :: e.target.video != v)
    && (forall r | r in s.requests && InFlight(s.requests[r]) :: s.requests[r].event.target.video != v)
    && (forall r | r in s.requests && s.requests[r].phase.Loaded? && s.requests[r].event.target.video == v ::
          v in start.stats && s.requests[r].phase.stat == start.stats[v])
  }

  ghost predicate SameActions(a: Stat, b: Stat) {
    a.likes == b.likes && a.favorites == b.favorites
  }

  ghost predicate BaseOk(start: Db, r: Redis) {
    && (forall v | v in r.base :: v in start.stats && SameActions(r.base[v], start.stats[v]))
    && (forall t | t in r.actions :: t !in start.actions && t.video in r.base)
  }

  ghost predicate AllFresh(start: Db, s: State) {
    && (forall e | e in s.queue :: Fresh(start, e))
    && (forall r | r in s.requests && !s.requests[r].phase.Done? :: Fresh(start, s.requests[r].event))
  }

  ghost predicate SameVideos(start: Db, db: Db) {
    db.videos == start.videos && db.stats.Keys == start.stats.Keys
  }

  ghost predicate Counted(start: Db, s: State) {
    && SameVideos(start, s.db)
    && Tallies(s.db, start.stats, start.actions.Keys)
    && ShardsTally(s.redis)
    && BaseOk(start, s.redis)
    && (forall v | v !in s.redis.base :: Untouched(start, s, v))
    && AllFresh(start, s)
  }

  /** Requests concern targets that had no row at the start. */
  ghost predicate Proper(start: Db, step: Step) {
    step.Begin? ==> step.event.target !in start.actions
  }

  lemma ApplyingTallies(start: Db, db: Db, e: Event)
    requires SameVideos(start, db) && Tallies(db, start.stats, start.actions.Keys) && Fresh(start, e)
    ensures SameVideos(start, Applying(db, e)) && Tallies(Applying(db, e), start.stats, start.actions.Keys)
  {
    SetActionTallies(db, start.stats, start.actions.Keys, e.target, e.active, e.key);
  }

  lemma StoreKeepsCounted(start: Db, s: State, r: nat, phase: Phase, order: seq<nat>)
    requires Counted(start, s) && r in s.requests && s.requests[r].phase.Loaded? && (phase.Sending? || phase.Done?)
    ensures Counted(start, Move(s, r, phase).(redis := StoredState(s, s.requests[r]), order := order))
  {
    hide Tallies, ShardsTally, ActionRow, ActionDelta, SameVideos;
    var q := s.requests[r];
    StoringTallies(s.redis, q.event.target, q.event.active, q.event.key, q.phase.stat);
  }

  lemma WritingKeepsUntouched(start: Db, s: State, t: State, e: Event)
    requires Fresh(start, e) && e.target.video in s.redis.base
    requires t == s.(db := Applying(s.db, e), queue := t.queue, requests := t.requests, order := t.order)
    requires forall f | f in t.queue :: f in s.queue
    requires forall r | r in t.requests ::
               r in s.requests && (t.requests[r] == s.requests[r] || t.requests[r].phase.Done?)
    requires forall v | v !in s.redis.base :: Untouched(start, s, v)
    ensures forall v | v !in t.redis.base :: Untouched(start, t, v)
  {
    forall v | v !in t.redis.base ensures Untouched(start, t, v) {
      assert Untouched(start, s, v);
    }
  }

  lemma VideoOfEventIsBased(start: Db, s: State, e: Event)
    requires forall v | v !in s.redis.base :: Untouched(start, s, v)
    requires e in s.queue || exists r :: r in s.requests && InFlight(s.requests[r]) && s.requests[r].event == e
    ensures e.target.video in s.redis.base
  {
    assert e.target.video !in s.redis.base ==> Untouched(start, s, e.target.video);
  }

  lemma SqlStepKeepsCounted(start: Db, s: State, step: Step)
    requires Counted(start, s) && (step.Consume? || step.Apply? || step.FallBack?)
    ensures Counted(start, Next(s, step))
  {
    hide Tallies, ShardsTally, SameVideos, Untouched, Applying;
    var t := Next(s, step);
    if !step.FallBack? && s.queue != [] {
      VideoOfEventIsBased(start, s, s.queue[0]);
      ApplyingTallies(start, s.db, s.queue[0]);
      WritingKeepsUntouched(start, s, t, s.queue[0]);
    } else if step.FallBack? && step.r in s.requests && s.requests[step.r].phase.FallingBack? {
      var e := s.requests[step.r].event;
      VideoOfEventIsBased(start, s, e);
      ApplyingTallies(start, s.db, e);
      WritingKeepsUntouched(start, s, t, e);
    }
  }

  lemma OtherStepKeepsUntouched(start: Db, s: State, step: Step, v: int)
    requires SameVideos(start, s.db) && BaseOk(start, s.redis) && Untouched(start, s, v)
    requires !step.Consume? && !step.Apply? && !step.FallBack? && !step.Store? && !step.StoreFails?
    ensures Untouched(start, Next(s, step), v)
  {
  }

  lemma OtherStepKeepsFresh(start: Db, s: State, step: Step)
    requires SameVideos(start, s.db) && AllFresh(start, s) && Proper(start, step)
    requires !step.Consume? && !step.Apply? && !step.FallBack? && !step.Store? && !step.StoreFails?
    ensures AllFresh(start, Next(s, step))
  {
  }

  /** Steps that write neither to Redis nor to the database. */
  lemma OtherStepKeepsCounted(start: Db, s: State, step: Step)
    requires Counted(start, s) && Proper(start, step)
    requires !step.Consume? && !step.Apply? && !step.FallBack? && !step.Store? && !step.StoreFails?
    ensures Counted(start, Next(s, step))
  {
    hide Tallies, ShardsTally, BaseOk, SameVideos, AllFresh, Untouched, Proper;
    var t := Next(s, step);
    forall v | v !in s.redis.base ensures Untouched(start, t, v) {
      OtherStepKeepsUntouched(start, s, step, v);
    }
    OtherStepKeepsFresh(start, s, step);
  }

  lemma StepKeepsCounted(start: Db, s: State, step: Step)
    requires Counted(start, s) && Proper(start, step)
    ensures Counted(start, Next(s, step))
  {
    hide Counted, Flips, StoredState;
    match step {
      case Store(r) =>
        if r in s.requests && s.requests[r].phase.Loaded? {
          var flips := Flips(s.redis, s.requests[r].event);
          StoreKeepsCounted(start, s, r, if flips then Sending else Done, if flips then s.order + [r] else s.order);
        }
      case StoreFails(r, written) =>
        if r in s.requests && s.requests[r].phase.Loaded? {
          if written { StoreKeepsCounted(start, s, r, Done, s.order); } else { FinishKeepsCounted(start, s, r); }
        }
      case Consume => SqlStepKeepsCounted(start, s, step);
      case Apply => SqlStepKeepsCounted(start, s, step);
      case FallBack(_) => SqlStepKeepsCounted(start, s, step);
      case _ => OtherStepKeepsCounted(start, s, step);
    }
  }

  lemma OrderDoesNotCount(start: Db, s: State, t: State)
    requires Counted(start, s) && t == s.(order := t.order)
    ensures Counted(start, t)
  {
    hide Tallies, ShardsTally, BaseOk, SameVideos, Fresh;
    assert forall v :: Untouched(start, s, v) ==> Untouched(start, t, v);
  }

  lemma FinishKeepsCounted(start: Db, s: State, r: nat)
    requires Counted(start, s) && r in s.requests
    ensures Counted(start, Move(s, r, Done))
  {
    hide Counted, Removed;
    OtherStepKeepsCounted(start, s, Die(r));
    OrderDoesNotCount(start, Next(s, Die(r)), Move(s, r, Done));
  }

  ghost predicate AllProper(start: Db, steps: seq<Step>) {
    forall step | step in steps :: Proper(start, step)
  }

  lemma {:induction false} RunKeepsCounted(start: Db, s: State, steps: seq<Step>)
    requires Counted(start, s) && AllProper(start, steps)
    ensures Counted(start, Run(s, steps))
    decreases |steps|
  {
    hide Counted, Next, Proper;
    if steps != [] {
      assert steps[0] in steps;
      StepKeepsCounted(start, s, steps[0]);
      RunKeepsCounted(start, Next(s, steps[0]), steps[1..]);
    }
  }

  /** The counts at the start are not negative. */
  ghost predicate Sound(start: Db) {
    forall v | v in start.stats :: start.stats[v].likes >= 0 && start.stats[v].favorites >= 0
  }

  lemma {:induction false} NothingSummed(v: int, k: Kind, n: nat)
    ensures ShardSum(map[], v, k, n) == 0
  {
    if n != 0 { NothingSummed(v, k, n - 1); }
  }

  lemma StartIsCounted(start: Db)
    requires Sound(start)
    ensures Counted(start, Start(start))
  {
    forall v, k: Kind ensures ShardsTallyAt(Start(start).redis, v, k) {
      NothingSummed(v, k, SHARDS);
      assert ActiveTargets(map[], {}, v, k) == {};
    }
    forall v | v in start.stats ensures TalliesAt(start, start.stats[v], start.actions.Keys, v) {
      assert ActiveTargets(start.actions, start.actions.Keys, v, Like) == {};
      assert ActiveTargets(start.actions, start.actions.Keys, v, Favorite) == {};
    }
  }

  /**
   In every run, whatever fails, whatever order events take and however often one is delivered, the count
   Redis shows is the count at the start plus the number of actions active in Redis, the stored count is the
   count at the start plus the number of new active rows, and neither clamp at zero changes anything.
   */
  lemma CountsAlwaysTally(start: Db, steps: seq<Step>, v: int)
    requires Sound(start) && AllProper(start, steps)
    requires v in Run(Start(start), steps).redis.base
    ensures var s := Run(Start(start), steps);
            && v in s.db.stats && v in start.stats
            && s.redis.base[v].likes + ShardSum(s.redis.shards, v, Like, 16) ==
                 start.stats[v].likes + |ActiveTargets(s.redis.actions, {}, v, Like)|
            && s.redis.base[v].favorites + ShardSum(s.redis.shards, v, Favorite, 16) ==
                 start.stats[v].favorites + |ActiveTargets(s.redis.actions, {}, v, Favorite)|
            && s.db.stats[v].likes ==
                 start.stats[v].likes + |ActiveTargets(s.db.actions, start.actions.Keys, v, Like)|
            && s.db.stats[v].favorites ==
                 start.stats[v].favorites + |ActiveTargets(s.db.actions, start.actions.Keys, v, Favorite)|
            && start.stats[v].likes >= 0 && start.stats[v].favorites >= 0
  {
    StartIsCounted(start);
    RunKeepsCounted(start, Start(start), steps);
    var s := Run(Start(start), steps);
    assert SameActions(s.redis.base[v], start.stats[v]);
    assert ShardsTallyAt(s.redis, v, Like) && ShardsTallyAt(s.redis, v, Favorite);
    assert TalliesAt(s.db, start.stats[v], start.actions.Keys, v);
  }

  // ---------------------------------------------------------------------------------------------
  // Where the database is heading
  // ---------------------------------------------------------------------------------------------

  /** A nonempty key is always used with the same target state. */
  ghost predicate KeyMeans(use: (Target, string) -> bool, t: Target, active: bool, key: string) {
    key != "" ==> active == use(t, key)
  }

  ghost predicate RowsMean(use: (Target, string) -> bool, start: Db, actions: map<Target, Action>) {
    forall t | t in actions && t !in start.actions :: KeyMeans(use, t, actions[t].active, actions[t].key)
  }

  ghost predicate EventMeans(use: (Target, string) -> bool, e: Event) {
    KeyMeans(use, e.target, e.active, e.key)
  }

  ghost predicate KeysMean(use: (Target, string) -> bool, start: Db, s: State) {
    && RowsMean(use, start, s.redis.actions) && RowsMean(use, start, s.db.actions)
    && (forall e | e in s.queue :: EventMeans(use, e))
    && (forall r | r in s.requests :: EventMeans(use, s.requests[r].event))
  }

  function ActiveIn(actions: map<Target, Action>, t: Target): bool {
    IsActive(Stored(actions, t))
  }

  /** With keys used this way an idempotent retry is harmless: the last write decides. */
  lemma LastWriteWins(use: (Target, string) -> bool, start: Db, db: Db, e: Event)
    requires RowsMean(use, start, db.actions) && EventMeans(use, e)
    requires e.target !in start.actions && CanAct(db, e.target.video)
    ensures RowsMean(use, start, Applying(db, e).actions)
    ensures forall t ::
              ActiveIn(Applying(db, e).actions, t) == if t == e.target then e.active else ActiveIn(db.actions, t)
  {
  }

  /** The state the last queued event for the target asks for. */
  function LastQueued(queue: seq<Event>, t: Target): Option<bool> {
    if queue == [] then None
    else if LastQueued(queue[1..], t).Some? then LastQueued(queue[1..], t)
    else if queue[0].target == t then Some(queue[0].active)
    else None
  }

  lemma {:induction false} LastQueuedAppend(queue: seq<Event>, e: Event, t: Target)
    ensures LastQueued(queue + [e], t) == if e.target == t then Some(e.active) else LastQueued(queue, t)
  {
    if queue != [] {
      assert (queue + [e])[1..] == queue[1..] + [e];
      LastQueuedAppend(queue[1..], e, t);
    }
  }

  lemma {:induction false} NotQueued(queue: seq<Event>, t: Target)
    ensures LastQueued(queue, t).None? <==> forall e | e in queue :: e.target != t
  {
    if queue != [] {
      NotQueued(queue[1..], t);
    }
  }

  /** The state the target will be in once the queue has been replayed. */
  function Eventually(db: Db, queue: seq<Event>, t: Target): bool {
    match LastQueued(queue, t)
    case Some(active) => active
    case None => ActiveIn(db.actions, t)
  }

  lemma {:induction false} ReplayedIsEventual(use: (Target, string) -> bool, start: Db, db: Db,
                                            queue: seq<Event>, t: Target)
    requires RowsMean(use, start, db.actions) && SameVideos(start, db)
    requires forall e | e in queue :: EventMeans(use, e) && Fresh(start, e)
    ensures ActiveIn(Replayed(db, queue).actions, t) == Eventually(db, queue, t)
    decreases |queue|
  {
    if queue != [] {
      LastWriteWins(use, start, db, queue[0]);
      ReplayedIsEventual(use, start, Applying(db, queue[0]), queue[1..], t);
    }
  }

  lemma {:induction false} LastQueuedConcat(first: seq<Event>, second: seq<Event>, t: Target)
    ensures LastQueued(first + second, t) ==
            if LastQueued(second, t).Some? then LastQueued(second, t) else LastQueued(first, t)
  {
    if first == [] {
      assert first + second == second;
    } else {
      assert (first + second)[1..] == first[1..] + second;
      LastQueuedConcat(first[1..], second, t);
    }
  }

  function EventsOf(order: seq<nat>, requests: map<nat, Request>): seq<Event> {
    if order == [] then []
    else (if order[0] in requests then [requests[order[0]].event] else []) + EventsOf(order[1..], requests)
  }

  /** The events still to be sent, in the order in which they were stored. */
  function Unsent(s: State): seq<Event> {
    EventsOf(s.order, s.requests)
  }

  /** And once the given request no longer is among them. */
  function Others(s: State, r: nat): seq<Event> {
    EventsOf(Removed(s.order, r), s.requests)
  }

  /** What the database will show once the queue, and after it everything unsent, has been replayed. */
  function Heading(s: State, t: Target): bool {
    Eventually(s.db, s.queue + Unsent(s), t)
  }

  function Shown(s: State, t: Target): bool {
    ActiveIn(s.redis.actions, t)
  }

  predicate Unsettled(q: Request) {
    q.phase == Sending || q.phase == FallingBack(false)
  }

  predicate Distinct(order: seq<nat>) {
    order == [] || (order[0] !in order[1..] && Distinct(order[1..]))
  }

  ghost predicate OrderOk(s: State) {
    Distinct(s.order) && forall r :: r in s.order <==> r in s.requests && Unsettled(s.requests[r])
  }

  /** The database is heading where Redis already is. */
  ghost predicate Agreeing(start: Db, s: State) {
    forall t | t !in start.actions :: Heading(s, t) == Shown(s, t)
  }

  ghost predicate Consistent(use: (Target, string) -> bool, start: Db, s: State) {
    Counted(start, s) && KeysMean(use, start, s) && OrderOk(s)
  }

  /** Requests concern new targets, and a key is used with one target state. */
  ghost predicate Used(use: (Target, string) -> bool, start: Db, step: Step) {
    step.Begin? ==> step.event.target !in start.actions && EventMeans(use, step.event)
  }

  // ---------------------------------------------------------------------------------------------
  // Which steps keep the two in agreement
  // ---------------------------------------------------------------------------------------------

  /** Without the request itself, the last of its target to be sent asks for what Redis shows, if there is any. */
  predicate PublicationKeeps(s: State, r: nat)
    requires r in s.requests
  {
    var t := s.requests[r].event.target;
    LastQueued(Others(s, r), t) in {None, Some(Shown(s, t))}
  }

  /** What is queued or unsent besides the request ends with what Redis shows, or else the database has it. */
  predicate LeavesKept(s: State, r: nat, written: bool)
    requires r in s.requests
  {
    var t := s.requests[r].event.target;
    match LastQueued(s.queue + Others(s, r), t)
    case Some(active) => active == Shown(s, t)
    case None => written == Shown(s, t)
  }

  /**
   Exactly when a step keeps the agreement. Storing, consuming and delivering twice always do; a stored
   change must not be forgotten, and publications, fallbacks and requeued events must not overtake.
   */
  predicate Keeps(s: State, step: Step) {
    match step
    case StoreFails(r, written) =>
      written && r in s.requests && s.requests[r].phase.Loaded? ==> !Flips(s.redis, s.requests[r].event)
    case Publish(r) => r in s.requests && s.requests[r].phase.Sending? ==> PublicationKeeps(s, r)
    case PublishFails(r, routed) => routed && r in s.requests && s.requests[r].phase.Sending? ==> PublicationKeeps(s, r)
    case FallBack(r) =>
      r in s.requests && s.requests[r].phase.FallingBack? ==> LeavesKept(s, r, s.requests[r].event.active)
    case Die(r) =>
      r in s.requests && r in s.order ==> LeavesKept(s, r, ActiveIn(s.db.actions, s.requests[r].event.target))
    case Requeue =>
      s.queue != [] ==>
        LastQueued(Unsent(s), s.queue[0].target).Some? || s.queue[0].active == Shown(s, s.queue[0].target)
    case _ => true
  }

  lemma {:induction false} SameEvents(order: seq<nat>, a: map<nat, Request>, b: map<nat, Request>)
    requires forall r | r in order :: r in a && r in b && a[r].event == b[r].event
    ensures EventsOf(order, a) == EventsOf(order, b)
  {
    if order != [] {
      SameEvents(order[1..], a, b);
    }
  }

  lemma {:induction false} EventsAppend(order: seq<nat>, r: nat, requests: map<nat, Request>)
    requires r in requests
    ensures EventsOf(order + [r], requests) == EventsOf(order, requests) + [requests[r].event]
  {
    if order == [] {
      assert EventsOf([r], requests) == [requests[r].event] + EventsOf([], requests);
    } else {
      var head := if order[0] in requests then [requests[order[0]].event] else [];
      var rest := EventsOf(order[1..], requests);
      assert (order + [r])[1..] == order[1..] + [r] && (order + [r])[0] == order[0];
      EventsAppend(order[1..], r, requests);
      assert EventsOf(order + [r], requests) == head + (rest + [requests[r].event]);
      assert head + (rest + [requests[r].event]) == (head + rest) + [requests[r].event];
    }
  }

  /** Taking a request out only matters for its own target; and if none of that is left, it was the last. */
  lemma {:induction false} WithoutRequest(order: seq<nat>, r: nat, requests: map<nat, Request>, t: Target)
    requires r in requests
    ensures var before, after := LastQueued(EventsOf(order, requests), t),
                LastQueued(EventsOf(Removed(order, r), requests), t);
            && (requests[r].event.target != t ==> after == before)
            && (r !in order ==> after == before)
            && (after.None? && r in order && requests[r].event.target == t ==> before == Some(requests[r].event.active))
    decreases |order|
  {
    if order != [] {
      WithoutRequest(order[1..], r, requests, t);
      var rest := EventsOf(order[1..], requests);
      var restLeft := EventsOf(Removed(order[1..], r), requests);
      var head := if order[0] in requests then [requests[order[0]].event] else [];
      assert EventsOf(order, requests) == head + rest;
      LastQueuedConcat(head, rest, t);
      if order[0] != r {
        assert Removed(order, r)[1..] == Removed(order[1..], r);
        assert EventsOf(Removed(order, r), requests) == head + restLeft;
        LastQueuedConcat(head, restLeft, t);
      } else {
        assert Removed(order, r) == Removed(order[1..], r);
        assert LastQueued(head, t) ==
               if requests[r].event.target == t then Some(requests[r].event.active) else None by {
          assert head[1..] == [];
        }
      }
    }
  }

  lemma HeadingOf(s: State, t: Target)
    ensures Heading(s, t) ==
            if LastQueued(Unsent(s), t).Some? then LastQueued(Unsent(s), t).value
            else if LastQueued(s.queue, t).Some? then LastQueued(s.queue, t).value
            else ActiveIn(s.db.actions, t)
  {
    LastQueuedConcat(s.queue, Unsent(s), t);
  }

  /** Where a target is heading, from what is unsent, queued and in the database for it. */
  lemma SameHeading(s: State, t: State, u: Target)
    requires LastQueued(Unsent(t), u) == LastQueued(Unsent(s), u) && LastQueued(t.queue, u) == LastQueued(s.queue, u)
    requires ActiveIn(t.db.actions, u) == ActiveIn(s.db.actions, u)
    ensures Heading(t, u) == Heading(s, u)
  {
    HeadingOf(s, u);
    HeadingOf(t, u);
  }

  /** Only the request's own target is affected, so the step is decided there. */
  lemma DecidedAt(start: Db, s: State, t: State, u: Target)
    requires Agreeing(start, s) && u !in start.actions
    requires forall o | o != u && o !in start.actions :: Heading(t, o) == Heading(s, o) && Shown(t, o) == Shown(s, o)
    ensures Agreeing(start, t) <==> Heading(t, u) == Shown(t, u)
  {
  }

  lemma OrderKnown(s: State, t: State)
    requires OrderOk(s) && forall r | r in s.requests :: r in t.requests && t.requests[r].event == s.requests[r].event
    ensures EventsOf(s.order, t.requests) == Unsent(s)
    ensures forall r :: EventsOf(Removed(s.order, r), t.requests) == Others(s, r)
  {
    SameEvents(s.order, s.requests, t.requests);
    forall r ensures EventsOf(Removed(s.order, r), t.requests) == Others(s, r) {
      SameEvents(Removed(s.order, r), s.requests, t.requests);
    }
  }

  lemma StoreAgrees(start: Db, s: State, r: nat)
    requires OrderOk(s) && Agreeing(start, s) && AllFresh(start, s)
    requires r in s.requests && s.requests[r].phase.Loaded?
    ensures Agreeing(start, Next(s, Store(r)))
  {
    hide LastQueued, ShardSum, OrderOk;
    var t := Next(s, Store(r));
    var e := s.requests[r].event;
    OrderKnown(s, t);
    if Flips(s.redis, e) { EventsAppend(s.order, r, t.requests); }
    forall u | u !in start.actions ensures Heading(t, u) == Shown(t, u) {
      assert Heading(s, u) == Shown(s, u);
      if Flips(s.redis, e) { LastQueuedAppend(Unsent(s), e, u); }
      HeadingOf(s, u);
      HeadingOf(t, u);
    }
  }

  /** A change that is stored and reported as a failure is forgotten. */
  lemma WrittenFailureAgreesIff(start: Db, s: State, r: nat)
    requires OrderOk(s) && Agreeing(start, s) && AllFresh(start, s)
    requires r in s.requests && s.requests[r].phase.Loaded?
    ensures Agreeing(start, Next(s, StoreFails(r, true))) <==> !Flips(s.redis, s.requests[r].event)
  {
    hide LastQueued, ShardSum, OrderOk;
    var t := Next(s, StoreFails(r, true));
    var e := s.requests[r].event;
    OrderKnown(s, t);
    forall u ensures Heading(t, u) == Heading(s, u) && (u != e.target ==> Shown(t, u) == Shown(s, u)) {
      SameHeading(s, t, u);
    }
    DecidedAt(start, s, t, e.target);
    assert Heading(s, e.target) == Shown(s, e.target);
  }

  lemma PublicationAgreesIff(start: Db, s: State, step: Step)
    requires OrderOk(s) && Agreeing(start, s) && AllFresh(start, s)
    requires step.Publish? || (step.PublishFails? && step.routed)
    requires step.r in s.requests && s.requests[step.r].phase.Sending?
    ensures Agreeing(start, Next(s, step)) <==> PublicationKeeps(s, step.r)
  {
    hide LastQueued, ActiveIn;
    var t := Next(s, step);
    var r, e := step.r, s.requests[step.r].event;
    OrderKnown(s, t);
    forall u ensures u != e.target ==> Heading(t, u) == Heading(s, u) {
      LastQueuedAppend(s.queue, e, u);
      WithoutRequest(s.order, r, s.requests, u);
      if u != e.target { SameHeading(s, t, u); }
    }
    DecidedAt(start, s, t, e.target);
    LastQueuedAppend(s.queue, e, e.target);
    WithoutRequest(s.order, r, s.requests, e.target);
    HeadingOf(s, e.target);
    HeadingOf(t, e.target);
    assert Heading(s, e.target) == Shown(s, e.target);
  }

  /** A fallback, or the end of a request whose change is nowhere but in Redis. */
  lemma LeavingAgreesIff(use: (Target, string) -> bool, start: Db, s: State, step: Step)
    requires Consistent(use, start, s) && Agreeing(start, s) && (step.FallBack? || step.Die?)
    requires step.r in s.requests && if step.FallBack? then s.requests[step.r].phase.FallingBack? else step.r in s.order
    ensures Agreeing(start, Next(s, step)) <==> Keeps(s, step)
  {
    hide LastQueued, ActiveIn, Applying, Tallies, ShardsTally, Untouched, BaseOk;
    var t := Next(s, step);
    var r, e := step.r, s.requests[step.r].event;
    OrderKnown(s, t);
    assert Fresh(start, e) && EventMeans(use, e);
    LastWriteWins(use, start, s.db, e);
    forall u | u != e.target ensures Heading(t, u) == Heading(s, u) {
      WithoutRequest(s.order, r, s.requests, u);
      SameHeading(s, t, u);
    }
    DecidedAt(start, s, t, e.target);
  }

  lemma ConsumingAgrees(use: (Target, string) -> bool, start: Db, s: State, step: Step)
    requires Consistent(use, start, s) && Agreeing(start, s) && (step.Consume? || step.Apply?)
    ensures Agreeing(start, Next(s, step))
  {
    hide ActiveIn, Applying, Tallies, ShardsTally, Untouched, BaseOk, OrderOk;
    var t := Next(s, step);
    if s.queue != [] {
      var e := s.queue[0];
      assert EventMeans(use, e) && Fresh(start, e);
      LastWriteWins(use, start, s.db, e);
      forall u | u !in start.actions ensures Heading(t, u) == Shown(t, u) {
        HeadingOf(s, u);
        HeadingOf(t, u);
        assert Heading(s, u) == Shown(s, u);
      }
    }
  }

  lemma RequeueAgreesIff(start: Db, s: State)
    requires Agreeing(start, s) && AllFresh(start, s) && s.queue != []
    ensures Agreeing(start, Next(s, Requeue)) <==> Keeps(s, Requeue)
  {
    var t := Next(s, Requeue);
    var e, rest := s.queue[0], s.queue[1..];
    assert Fresh(start, e);
    forall u ensures u != e.target ==> Heading(t, u) == Heading(s, u) {
      LastQueuedAppend(rest, e, u);
      if u != e.target { SameHeading(s, t, u); }
    }
    DecidedAt(start, s, t, e.target);
    LastQueuedAppend(rest, e, e.target);
    HeadingOf(t, e.target);
    HeadingOf(s, e.target);
    assert Heading(s, e.target) == Shown(s, e.target);
  }

  /** A step that changes nothing but the phase of a request whose change is not pending. */
  lemma QuietStepAgrees(start: Db, s: State, t: State)
    requires OrderOk(s) && Agreeing(start, s)
    requires t.db == s.db && t.redis == s.redis && t.queue == s.queue && t.order == s.order
    requires forall r | r in s.requests :: r in t.requests && t.requests[r].event == s.requests[r].event
    ensures Agreeing(start, t)
  {
    OrderKnown(s, t);
    forall u | u !in start.actions ensures Heading(t, u) == Shown(t, u) {
      assert Heading(s, u) == Shown(s, u);
    }
  }

  lemma {:induction false} RemovedIsDistinct(order: seq<nat>, r: nat)
    requires Distinct(order)
    ensures Distinct(Removed(order, r)) && (r !in order ==> Removed(order, r) == order)
  {
    if order != [] {
      var rest := Removed(order[1..], r);
      RemovedIsDistinct(order[1..], r);
      if order[0] == r {
        assert Removed(order, r) == rest;
      } else {
        assert Removed(order, r) == [order[0]] + rest && ([order[0]] + rest)[1..] == rest;
      }
    }
  }

  lemma {:induction false} AppendedIsDistinct(order: seq<nat>, r: nat)
    requires Distinct(order) && r !in order
    ensures Distinct(order + [r])
  {
    if order != [] {
      assert (order + [r])[1..] == order[1..] + [r];
      AppendedIsDistinct(order[1..], r);
    }
  }

  /** A request joins the pending ones at the end of the order. */
  lemma JoinsOrder(s: State, t: State, r: nat)
    requires OrderOk(s) && r in s.requests && r in t.requests && !Unsettled(s.requests[r]) && Unsettled(t.requests[r])
    requires t.order == s.order + [r] && t.requests == s.requests[r := t.requests[r]]
    ensures OrderOk(t)
  {
    AppendedIsDistinct(s.order, r);
  }

  /** A request is settled and leaves the order, if it was in it. */
  lemma LeavesOrder(s: State, t: State, r: nat)
    requires OrderOk(s) && r in s.requests && r in t.requests && !Unsettled(t.requests[r])
    requires t.order == Removed(s.order, r) && t.requests == s.requests[r := t.requests[r]]
    ensures OrderOk(t)
  {
    RemovedIsDistinct(s.order, r);
  }

  /** The same requests are pending as before. */
  lemma StaysInOrder(s: State, t: State)
    requires OrderOk(s) && t.order == s.order
    requires forall r :: r in s.requests && Unsettled(s.requests[r]) <==> r in t.requests && Unsettled(t.requests[r])
    ensures OrderOk(t)
  {
  }

  lemma StepKeepsOrder(s: State, step: Step)
    requires OrderOk(s)
    ensures OrderOk(Next(s, step))
  {
    hide OrderOk, Removed, Distinct, Flips, StoredState, Applying;
    var t := Next(s, step);
    match step {
      case Store(r) =>
        if r in s.requests && s.requests[r].phase.Loaded? && Flips(s.redis, s.requests[r].event) {
          JoinsOrder(s, t, r);
        } else {
          StaysInOrder(s, t);
        }
      case Publish(r) => if r in s.requests && s.requests[r].phase.Sending? { LeavesOrder(s, t, r); }
      case PublishFails(r, routed) =>
        if r in s.requests && s.requests[r].phase.Sending? {
          if routed { LeavesOrder(s, t, r); } else { StaysInOrder(s, t); }
        }
      case FallBack(r) => if r in s.requests && s.requests[r].phase.FallingBack? { LeavesOrder(s, t, r); }
      case Die(r) => if r in s.requests { LeavesOrder(s, t, r); }
      case _ => StaysInOrder(s, t);
    }
  }

  lemma StoreKeepsKeys(use: (Target, string) -> bool, start: Db, s: State, r: nat, phase: Phase, order: seq<nat>)
    requires KeysMean(use, start, s) && r in s.requests && s.requests[r].phase.Loaded?
    ensures KeysMean(use, start, Move(s, r, phase).(redis := StoredState(s, s.requests[r]), order := order))
  {
  }

  lemma ApplyingKeepsKeys(use: (Target, string) -> bool, start: Db, s: State, e: Event)
    requires KeysMean(use, start, s) && SameVideos(start, s.db) && Fresh(start, e) && EventMeans(use, e)
    ensures RowsMean(use, start, Applying(s.db, e).actions)
  {
    LastWriteWins(use, start, s.db, e);
  }

  lemma StepKeepsKeys(use: (Target, string) -> bool, start: Db, s: State, step: Step)
    requires KeysMean(use, start, s) && Counted(start, s) && Used(use, start, step)
    ensures KeysMean(use, start, Next(s, step))
  {
    hide EventMeans, RowsMean, Tallies, ShardsTally, BaseOk, Untouched, SameVideos, Fresh, Applying, StoredState;
    match step {
      case Store(r) =>
        if r in s.requests && s.requests[r].phase.Loaded? {
          var flips := Flips(s.redis, s.requests[r].event);
          StoreKeepsKeys(use, start, s, r, if flips then Sending else Done, if flips then s.order + [r] else s.order);
        }
      case StoreFails(r, written) =>
        if r in s.requests && s.requests[r].phase.Loaded? && written {
          StoreKeepsKeys(use, start, s, r, Done, s.order);
        }
      case Consume => if s.queue != [] { ApplyingKeepsKeys(use, start, s, s.queue[0]); }
      case Apply => if s.queue != [] { ApplyingKeepsKeys(use, start, s, s.queue[0]); }
      case FallBack(r) =>
        if r in s.requests && s.requests[r].phase.FallingBack? {
          ApplyingKeepsKeys(use, start, s, s.requests[r].event);
        }
      case _ =>
    }
  }

  lemma StepKeepsConsistent(use: (Target, string) -> bool, start: Db, s: State, step: Step)
    requires Consistent(use, start, s) && Used(use, start, step)
    ensures Consistent(use, start, Next(s, step))
  {
    hide Counted, KeysMean, OrderOk, Next;
    StepKeepsCounted(start, s, step);
    StepKeepsKeys(use, start, s, step);
    StepKeepsOrder(s, step);
  }

  /** Every step, whatever it is, keeps the database heading where Redis is exactly when its condition holds. */
  lemma StepAgreesIff(use: (Target, string) -> bool, start: Db, s: State, step: Step)
    requires Consistent(use, start, s) && Agreeing(start, s)
    ensures Agreeing(start, Next(s, step)) <==> Keeps(s, step)
  {
    hide KeysMean, Agreeing, Applying, StoredState, LastQueued, Tallies, ShardsTally, Untouched, BaseOk, Distinct;
    match step {
      case Begin(_, _) => QuietStepAgrees(start, s, Next(s, step));
      case Store(r) => if r in s.requests && s.requests[r].phase.Loaded? { StoreAgrees(start, s, r); }
      case StoreFails(r, written) =>
        if written && r in s.requests && s.requests[r].phase.Loaded? {
          WrittenFailureAgreesIff(start, s, r);
        } else if !written {
          QuietStepAgrees(start, s, Next(s, step));
        }
      case Publish(r) => if r in s.requests && s.requests[r].phase.Sending? { PublicationAgreesIff(start, s, step); }
      case PublishFails(r, routed) =>
        if r in s.requests && s.requests[r].phase.Sending? {
          if routed { PublicationAgreesIff(start, s, step); } else { QuietStepAgrees(start, s, Next(s, step)); }
        }
      case FallBack(r) =>
        if r in s.requests && s.requests[r].phase.FallingBack? { LeavingAgreesIff(use, start, s, step); }
      case Die(r) =>
        if r in s.order {
          LeavingAgreesIff(use, start, s, step);
        } else if r in s.requests {
          assert Removed(s.order, r) == s.order by { RemovedIsDistinct(s.order, r); }
          QuietStepAgrees(start, s, Next(s, step));
        }
      case Consume => ConsumingAgrees(use, start, s, step);
      case Apply => ConsumingAgrees(use, start, s, step);
      case Requeue => if s.queue != [] { RequeueAgreesIff(start, s); }
    }
  }

  // ---------------------------------------------------------------------------------------------
  // Agreement, in every run
  // ---------------------------------------------------------------------------------------------

  ghost predicate AllUsed(use: (Target, string) -> bool, start: Db, steps: seq<Step>) {
    forall step | step in steps :: Used(use, start, step)
  }

  ghost predicate AllKeep(s: State, steps: seq<Step>)
    decreases |steps|
  {
    steps == [] || (Keeps(s, steps[0]) && AllKeep(Next(s, steps[0]), steps[1..]))
  }

  ghost predicate AgreesThroughout(start: Db, s: State, steps: seq<Step>)
    decreases |steps|
  {
    Agreeing(start, s) && (steps == [] || AgreesThroughout(start, Next(s, steps[0]), steps[1..]))
  }

  /** A run agrees at every moment exactly when every step of it meets its condition. */
  lemma {:induction false} RunAgreesIff(use: (Target, string) -> bool, start: Db, s: State, steps: seq<Step>)
    requires Consistent(use, start, s) && Agreeing(start, s) && AllUsed(use, start, steps)
    ensures AgreesThroughout(start, s, steps) <==> AllKeep(s, steps)
    ensures Consistent(use, start, Run(s, steps)) && (AllKeep(s, steps) ==> Agreeing(start, Run(s, steps)))
    decreases |steps|
  {
    hide Consistent, Agreeing, Next, Keeps, Used;
    if steps != [] {
      assert steps[0] in steps;
      StepKeepsConsistent(use, start, s, steps[0]);
      StepAgreesIff(use, start, s, steps[0]);
      if Keeps(s, steps[0]) {
        RunAgreesIff(use, start, Next(s, steps[0]), steps[1..]);
      } else {
        RunKeepsConsistent(use, start, Next(s, steps[0]), steps[1..]);
        NotAgreeing(start, Next(s, steps[0]), steps[1..]);
      }
    }
  }

  lemma NotAgreeing(start: Db, s: State, steps: seq<Step>)
    requires !Agreeing(start, s)
    ensures !AgreesThroughout(start, s, steps)
  {
  }

  lemma {:induction false} RunKeepsConsistent(use: (Target, string) -> bool, start: Db, s: State, steps: seq<Step>)
    requires Consistent(use, start, s) && AllUsed(use, start, steps)
    ensures Consistent(use, start, Run(s, steps))
    decreases |steps|
  {
    hide Consistent, Next, Used;
    if steps != [] {
      assert steps[0] in steps;
      StepKeepsConsistent(use, start, s, steps[0]);
      RunKeepsConsistent(use, start, Next(s, steps[0]), steps[1..]);
    }
  }

  lemma StartAgrees(use: (Target, string) -> bool, start: Db)
    requires Sound(start)
    ensures Consistent(use, start, Start(start)) && Agreeing(start, Start(start))
  {
    StartIsCounted(start);
  }

  /** Every stored change for the target has been sent, or written to the database. */
  ghost predicate Settled(s: State, t: Target) {
    forall r | r in s.order && r in s.requests :: s.requests[r].event.target != t
  }

  lemma {:induction false} NothingUnsent(order: seq<nat>, requests: map<nat, Request>, t: Target)
    requires forall r | r in order && r in requests :: requests[r].event.target != t
    ensures LastQueued(EventsOf(order, requests), t).None?
  {
    if order != [] {
      NothingUnsent(order[1..], requests, t);
      var head := if order[0] in requests then [requests[order[0]].event] else [];
      LastQueuedConcat(head, EventsOf(order[1..], requests), t);
      assert order[0] in order;
    }
  }

  /** Replaying the queue gives a settled target where the database is heading. */
  lemma ReplayedIsHeading(use: (Target, string) -> bool, start: Db, s: State, t: Target)
    requires Consistent(use, start, s) && Settled(s, t)
    ensures ActiveIn(Replayed(s.db, s.queue).actions, t) == Heading(s, t)
  {
    hide LastQueued, Tallies, ShardsTally, Untouched, BaseOk;
    NothingUnsent(s.order, s.requests, t);
    HeadingOf(s, t);
    ReplayedIsEventual(use, start, s.db, s.queue, t);
  }

  /**
   Main result. In every run whose steps meet their conditions, however many requests for one target are
   under way at once, replaying the queue in order through the SQL transaction gives every settled target
   the state Redis already shows.
   */
  lemma ReplayAgrees(use: (Target, string) -> bool, start: Db, steps: seq<Step>, t: Target)
    requires Sound(start) && AllUsed(use, start, steps) && AllKeep(Start(start), steps) && t !in start.actions
    requires Settled(Run(Start(start), steps), t)
    ensures var s := Run(Start(start), steps);
            ActiveIn(Replayed(s.db, s.queue).actions, t) == ActiveIn(s.redis.actions, t)
  {
    StartAgrees(use, start);
    RunAgreesIff(use, start, Start(start), steps);
    var s := Run(Start(start), steps);
    assert Heading(s, t) == Shown(s, t);
    ReplayedIsHeading(use, start, s, t);
  }

  // ---------------------------------------------------------------------------------------------
  // Publishing in the order of the stores
  // ---------------------------------------------------------------------------------------------

  /** The oldest unsent request of its target. */
  predicate IsOldest(order: seq<nat>, requests: map<nat, Request>, r: nat) {
    && order != [] && r in requests
    && (order[0] == r ||
        ((order[0] in requests ==> requests[order[0]].event.target != requests[r].event.target) &&
         IsOldest(order[1..], requests, r)))
  }

  lemma {:induction false} OldestLeavesTheLast(order: seq<nat>, requests: map<nat, Request>, r: nat)
    requires Distinct(order) && IsOldest(order, requests, r)
    ensures LastQueued(EventsOf(Removed(order, r), requests), requests[r].event.target) in
            {None, LastQueued(EventsOf(order, requests), requests[r].event.target)}
  {
    var t := requests[r].event.target;
    var head := if order[0] in requests then [requests[order[0]].event] else [];
    var rest := EventsOf(order[1..], requests);
    LastQueuedConcat(head, rest, t);
    RemovedIsDistinct(order[1..], r);
    if order[0] != r {
      OldestLeavesTheLast(order[1..], requests, r);
      var restLeft := EventsOf(Removed(order[1..], r), requests);
      assert Removed(order, r)[1..] == Removed(order[1..], r);
      LastQueuedConcat(head, restLeft, t);
      assert LastQueued(head, t).None? by { assert head == [] || head[1..] == []; }
    } else {
      assert Removed(order, r) == order[1..];
    }
  }

  /** Publishing the oldest change of a target first always meets the condition. */
  lemma StoreOrderKeeps(start: Db, s: State, r: nat)
    requires OrderOk(s) && Agreeing(start, s) && AllFresh(start, s)
    requires r in s.requests && s.requests[r].phase.Sending? && IsOldest(s.order, s.requests, r)
    ensures Keeps(s, Publish(r)) && Keeps(s, PublishFails(r, true))
  {
    hide LastQueued;
    var t := s.requests[r].event.target;
    assert t !in start.actions && Heading(s, t) == Shown(s, t);
    HeadingOf(s, t);
    OldestLeavesTheLast(s.order, s.requests, r);
  }

  function Publications(p: seq<nat>): seq<Step> {
    if p == [] then [] else [Publish(p[0])] + Publications(p[1..])
  }

  /** What publishing the listed requests makes of a state. */
  ghost predicate PublishedFrom(s: State, p: seq<nat>, t: State) {
    && t.queue == s.queue + EventsOf(p, s.requests) && t.db == s.db && t.redis == s.redis
    && t.requests.Keys == s.requests.Keys
    && (forall r | r in s.requests :: t.requests[r].event == s.requests[r].event)
    && (forall r :: r in t.order <==> r in s.order && r !in p)
  }

  lemma {:induction false} AllPublished(s: State, p: seq<nat>)
    requires Distinct(p) && forall r | r in p :: r in s.requests && s.requests[r].phase.Sending?
    ensures PublishedFrom(s, p, Run(s, Publications(p)))
    decreases |p|
  {
    hide Next, PublishedFrom;
    if p == [] {
      assert PublishedFrom(s, p, s) by { NothingPublished(s); }
    } else {
      var t := Next(s, Publish(p[0]));
      assert p[0] in p && forall r | r in p[1..] :: r in p;
      PublishedOnce(s, p[0]);
      AllPublished(t, p[1..]);
      assert Publications(p)[1..] == Publications(p[1..]);
      PublishedFirst(s, p, t, Run(t, Publications(p[1..])));
    }
  }

  lemma NothingPublished(s: State)
    ensures PublishedFrom(s, [], s)
  {
    assert s.queue + EventsOf([], s.requests) == s.queue;
  }

  lemma PublishedFirst(s: State, p: seq<nat>, t: State, u: State)
    requires p != [] && (forall r | r in p :: r in s.requests)
    requires t.queue == s.queue + [s.requests[p[0]].event] && t.db == s.db && t.redis == s.redis
    requires t.requests == s.requests[p[0] := s.requests[p[0]].(phase := Done)]
    requires forall o :: o in t.order <==> o in s.order && o != p[0]
    requires PublishedFrom(t, p[1..], u)
    ensures PublishedFrom(s, p, u)
  {
    assert p[0] in p && forall r | r in p[1..] :: r in p;
    assert u.queue == s.queue + EventsOf(p, s.requests) by {
      SameEvents(p[1..], s.requests, t.requests);
      assert EventsOf(p, s.requests) == [s.requests[p[0]].event] + EventsOf(p[1..], s.requests);
    }
    assert forall r :: r in p <==> r == p[0] || r in p[1..];
  }

  lemma PublishedOnce(s: State, r: nat)
    requires r in s.requests && s.requests[r].phase.Sending?
    ensures var t := Next(s, Publish(r));
            && t.queue == s.queue + [s.requests[r].event] && t.db == s.db && t.redis == s.redis
            && t.requests == s.requests[r := s.requests[r].(phase := Done)]
            && (forall o :: o in t.order <==> o in s.order && o != r)
  {
  }

  /**
   However the unsent requests of a target are published, in whatever order and between whatever others:
   replaying then agrees with Redis exactly when the one published last asks for the same state as the one
   stored last.
   */
  lemma PublicationOrderDecides(use: (Target, string) -> bool, start: Db, s: State, p: seq<nat>, t: Target)
    requires Consistent(use, start, s) && Agreeing(start, s) && t !in start.actions
    requires Distinct(p) && forall r | r in p :: r in s.requests && s.requests[r].phase.Sending?
    requires forall r | r in s.order && s.requests[r].event.target == t :: r in p
    ensures var u := Run(s, Publications(p));
            ActiveIn(Replayed(u.db, u.queue).actions, t) == ActiveIn(u.redis.actions, t) <==>
            LastQueued(EventsOf(p, s.requests), t) in {None, LastQueued(Unsent(s), t)}
  {
    hide LastQueued, Tallies, ShardsTally, Untouched, BaseOk;
    var u := Run(s, Publications(p));
    var sent := EventsOf(p, s.requests);
    AllPublished(s, p);
    EventsAreFrom(p, s.requests);
    ReplayedIsEventual(use, start, u.db, u.queue, t);
    LastQueuedConcat(s.queue, sent, t);
    HeadingOf(s, t);
    assert Heading(s, t) == Shown(s, t);
    if LastQueued(sent, t).None? {
      NotQueued(sent, t);
      forall r | r in s.order && r in s.requests ensures s.requests[r].event.target != t {
        assert r in p ==> s.requests[r].event in sent;
      }
      NothingUnsent(s.order, s.requests, t);
    } else {
      NotQueued(sent, t);
      var e :| e in sent && e.target == t;
      var r :| r in p && s.requests[r].event == e;
      UnsentIsKnown(s.order, s.requests, r);
    }
  }

  lemma {:induction false} EventsAreFrom(p: seq<nat>, requests: map<nat, Request>)
    requires forall r | r in p :: r in requests
    ensures forall e | e in EventsOf(p, requests) :: exists r :: r in p && requests[r].event == e
    ensures forall r | r in p :: requests[r].event in EventsOf(p, requests)
  {
    if p != [] {
      EventsAreFrom(p[1..], requests);
      assert p[0] in p && forall r | r in p[1..] :: r in p;
    }
  }

  lemma UnsentIsKnown(order: seq<nat>, requests: map<nat, Request>, r: nat)
    requires r in order && forall o | o in order :: o in requests
    ensures LastQueued(EventsOf(order, requests), requests[r].event.target).Some?
  {
    EventsAreFrom(order, requests);
    NotQueued(EventsOf(order, requests), requests[r].event.target);
  }

  lemma SameActiveTargets(start: Db, actions: map<Target, Action>, redis: map<Target, Action>, v: int, k: Kind)
    requires forall t | t in redis :: t !in start.actions
    requires forall t | t !in start.actions && t.video == v && t.kind == k :: ActiveIn(actions, t) == ActiveIn(redis, t)
    ensures ActiveTargets(actions, start.actions.Keys, v, k) == ActiveTargets(redis, {}, v, k)
  {
    forall t ensures t in ActiveTargets(actions, start.actions.Keys, v, k) <==> t in ActiveTargets(redis, {}, v, k) {
      if t !in start.actions && t.video == v && t.kind == k {
        assert ActiveIn(actions, t) == ActiveIn(redis, t);
      }
    }
  }

  lemma {:induction false} ReplayTallies(start: Db, db: Db, queue: seq<Event>)
    requires SameVideos(start, db) && Tallies(db, start.stats, start.actions.Keys)
    requires forall e | e in queue :: Fresh(start, e)
    ensures SameVideos(start, Replayed(db, queue)) && Tallies(Replayed(db, queue), start.stats, start.actions.Keys)
    decreases |queue|
  {
    hide Tallies, Applying;
    if queue != [] {
      ApplyingTallies(start, db, queue[0]);
      ReplayTallies(start, Applying(db, queue[0]), queue[1..]);
    }
  }

  /**
   Main result, for the counts. Once every target of a video and kind is settled, replaying the queue makes
   the stored count equal to the base counter plus the sixteen shards.
   */
  lemma ReplayedCountsAgree(use: (Target, string) -> bool, start: Db, steps: seq<Step>, v: int, k: Kind)
    requires Sound(start) && AllUsed(use, start, steps) && AllKeep(Start(start), steps)
    requires v in Run(Start(start), steps).redis.base
    requires forall t: Target | t.video == v && t.kind == k :: Settled(Run(Start(start), steps), t)
    ensures var s := Run(Start(start), steps);
            var d := Replayed(s.db, s.queue);
            && v in d.stats
            && (k == Like ==> d.stats[v].likes == s.redis.base[v].likes + ShardSum(s.redis.shards, v, Like, 16))
            && (k == Favorite ==>
                  d.stats[v].favorites == s.redis.base[v].favorites + ShardSum(s.redis.shards, v, Favorite, 16))
  {
    hide Tallies, ShardsTally;
    var s := Run(Start(start), steps);
    var d := Replayed(s.db, s.queue);
    StartAgrees(use, start);
    RunAgreesIff(use, start, Start(start), steps);
    ReplayTallies(start, s.db, s.queue);
    forall t: Target | t !in start.actions && t.video == v && t.kind == k
      ensures ActiveIn(d.actions, t) == ActiveIn(s.redis.actions, t)
    {
      ReplayAgrees(use, start, steps, t);
    }
    SameActiveTargets(start, d.actions, s.redis.actions, v, k);
    CountsFollowRows(start, s.redis, d, v, k);
  }

  lemma CountsFollowRows(start: Db, redis: Redis, d: Db, v: int, k: Kind)
    requires v in redis.base && BaseOk(start, redis) && ShardsTally(redis)
    requires SameVideos(start, d) && Tallies(d, start.stats, start.actions.Keys)
    requires ActiveTargets(d.actions, start.actions.Keys, v, k) == ActiveTargets(redis.actions, {}, v, k)
    ensures v in d.stats
    ensures k == Like ==> d.stats[v].likes == redis.base[v].likes + ShardSum(redis.shards, v, Like, 16)
    ensures k == Favorite ==> d.stats[v].favorites == redis.base[v].favorites + ShardSum(redis.shards, v, Favorite, 16)
  {
    assert SameActions(redis.base[v], start.stats[v]);
    assert ShardsTallyAt(redis, v, k);
    assert TalliesAt(d, start.stats[v], start.actions.Keys, v);
  }

  // ---------------------------------------------------------------------------------------------
  // What goes wrong with a change that has just been stored
  // ---------------------------------------------------------------------------------------------

  /** A request that is about to change its target, in a state in agreement. */
  ghost predicate AboutToFlip(use: (Target, string) -> bool, start: Db, s: State, r: nat) {
    && Consistent(use, start, s) && Agreeing(start, s)
    && r in s.requests && s.requests[r].phase.Loaded? && Flips(s.redis, s.requests[r].event)
  }

  /** From any start one request, for a new target of a video that can be acted on, leads there. */
  lemma AboutToFlipIsReached(use: (Target, string) -> bool, start: Db, r: nat, e: Event)
    requires Sound(start) && Fresh(start, e) && EventMeans(use, e) && e.active
    ensures AboutToFlip(use, start, Run(Start(start), [Begin(r, e)]), r)
  {
    hide Counted, KeysMean, Agreeing, OrderOk;
    var s := Start(start);
    var t := Next(s, Begin(r, e));
    assert [Begin(r, e)][1..] == [];
    assert Run(t, []) == t;
    StartAgrees(use, start);
    StepKeepsConsistent(use, start, s, Begin(r, e));
    StepAgreesIff(use, start, s, Begin(r, e));
  }

  /** Then Redis shows the new state and the database is heading for the old. */
  lemma Flipped(use: (Target, string) -> bool, start: Db, s: State, r: nat)
    requires AboutToFlip(use, start, s, r)
    ensures var e := s.requests[r].event;
            var t := Next(s, Store(r));
            && Consistent(use, start, t) && Agreeing(start, t)
            && Shown(t, e.target) == e.active && Heading(s, e.target) == !e.active
            && t.order == s.order + [r] && Others(t, r) == Unsent(s)
            && t.queue == s.queue && t.db == s.db && t.requests == s.requests[r := Request(e, Sending)]
  {
    hide Counted, KeysMean, LastQueued, ShardSum;
    var t := Next(s, Store(r));
    assert Heading(s, s.requests[r].event.target) == Shown(s, s.requests[r].event.target) by {
      FreshTarget(start, s, r);
    }
    StepKeepsConsistent(use, start, s, Store(r));
    StepAgreesIff(use, start, s, Store(r));
    RemovedAppended(s.order, r);
    OrderKnown(s, t);
  }

  lemma FreshTarget(start: Db, s: State, r: nat)
    requires Counted(start, s) && r in s.requests && !s.requests[r].phase.Done?
    ensures s.requests[r].event.target !in start.actions
  {
  }

  lemma {:induction false} RemovedAppended(order: seq<nat>, r: nat)
    requires Distinct(order) && r !in order
    ensures Removed(order + [r], r) == order
  {
    if order == [] {
      assert Removed([r], r) == Removed([], r);
    } else {
      assert (order + [r])[1..] == order[1..] + [r];
      RemovedAppended(order[1..], r);
    }
  }

  /**
   The publication fails without reaching the queue and the request falls back to the database. The two
   still agree exactly when no event for the target is queued or unsent: an older one overtakes the fallback.
   */
  lemma FallBackAgreesIffNothingQueued(use: (Target, string) -> bool, start: Db, s: State, r: nat)
    requires AboutToFlip(use, start, s, r)
    ensures var u := s.requests[r].event.target;
            Agreeing(start, Next(Next(Next(s, Store(r)), PublishFails(r, false)), FallBack(r))) <==>
            forall e | e in s.queue + Unsent(s) :: e.target != u
  {
    hide Consistent, Agreeing, LastQueued, Counted, KeysMean, Applying;
    var e := s.requests[r].event;
    Flipped(use, start, s, r);
    var stored := Next(s, Store(r));
    var failed := Next(stored, PublishFails(r, false));
    StepKeepsConsistent(use, start, stored, PublishFails(r, false));
    StepAgreesIff(use, start, stored, PublishFails(r, false));
    StepAgreesIff(use, start, failed, FallBack(r));
    assert Others(failed, r) == Unsent(s) by { ConsistentOrder(use, start, stored); OrderKnown(stored, failed); }
    NotQueued(s.queue + Unsent(s), e.target);
  }

  lemma ConsistentOrder(use: (Target, string) -> bool, start: Db, s: State)
    requires Consistent(use, start, s)
    ensures OrderOk(s)
  {
  }

  /** A request that dies between its two writes leaves Redis and the database apart. */
  lemma DeathInFlightDisagrees(use: (Target, string) -> bool, start: Db, s: State, r: nat)
    requires AboutToFlip(use, start, s, r)
    ensures !Agreeing(start, Next(Next(s, Store(r)), Die(r)))
  {
    hide Consistent, Agreeing, LastQueued;
    var e := s.requests[r].event;
    Flipped(use, start, s, r);
    var stored := Next(s, Store(r));
    StepAgreesIff(use, start, stored, Die(r));
  }

  /** So does a store that is carried out and reported as failed. */
  lemma HiddenStoreDisagrees(use: (Target, string) -> bool, start: Db, s: State, r: nat)
    requires AboutToFlip(use, start, s, r)
    ensures !Agreeing(start, Next(s, StoreFails(r, true)))
  {
    hide Consistent, Agreeing;
    StepAgreesIff(use, start, s, StoreFails(r, true));
  }

  /**
   Two opposite requests for one target, stored one after the other. If they are published in that order
   replaying agrees with Redis, and if they overtake each other it does not.
   */
  lemma OvertakingDisagrees(use: (Target, string) -> bool, start: Db, s: State, r: nat, o: nat)
    requires AboutToFlip(use, start, s, o) && s.requests[o].event.target !in start.actions
    requires r in s.requests && s.requests[r].phase.Sending?
    requires s.requests[r].event.target == s.requests[o].event.target
    requires forall x | x in s.order && s.requests[x].event.target == s.requests[r].event.target :: x == r
    ensures var u := s.requests[r].event.target;
            var stored := Next(s, Store(o));
            var inOrder, overtaken := Run(stored, Publications([r, o])), Run(stored, Publications([o, r]));
            && ActiveIn(Replayed(inOrder.db, inOrder.queue).actions, u) == ActiveIn(inOrder.redis.actions, u)
            && ActiveIn(Replayed(overtaken.db, overtaken.queue).actions, u) != ActiveIn(overtaken.redis.actions, u)
  {
    hide Counted, KeysMean, Agreeing, LastQueued;
    var e, f := s.requests[r].event, s.requests[o].event;
    var u := e.target;
    Flipped(use, start, s, o);
    var t := Next(s, Store(o));
    TwoAreDistinct(r, o);
    TwoAreDistinct(o, r);
    EventsOfTwo(t.requests, r, o);
    EventsOfTwo(t.requests, o, r);
    LastOfTwo(e, f, u);
    LastOfTwo(f, e, u);
    SecondStoreIsOpposite(use, start, s, r, o);
    PublicationOrderDecides(use, start, t, [r, o], u);
    PublicationOrderDecides(use, start, t, [o, r], u);
  }

  lemma EventsOfTwo(requests: map<nat, Request>, r: nat, o: nat)
    requires r in requests && o in requests
    ensures EventsOf([r, o], requests) == [requests[r].event, requests[o].event]
  {
    assert [r, o][1..] == [o] && [o][1..] == [];
    assert EventsOf([o], requests) == [requests[o].event] + EventsOf([], requests);
  }

  lemma TwoAreDistinct(r: nat, o: nat)
    requires r != o
    ensures Distinct([r, o])
  {
    assert [r, o][1..] == [o] && [o][1..] == [];
    assert Distinct([o]);
  }

  lemma LastOfTwo(e: Event, f: Event, t: Target)
    requires e.target == t && f.target == t
    ensures LastQueued([e, f], t) == Some(f.active)
  {
    assert [e, f] == [e] + [f];
    LastQueuedAppend([e], f, t);
  }

  /** The second store asks for the opposite of the first, and what is unsent after it ends with it. */
  lemma SecondStoreIsOpposite(use: (Target, string) -> bool, start: Db, s: State, r: nat, o: nat)
    requires AboutToFlip(use, start, s, o) && r in s.requests && s.requests[r].phase.Sending?
    requires s.requests[r].event.target == s.requests[o].event.target
    requires forall x | x in s.order && s.requests[x].event.target == s.requests[r].event.target :: x == r
    ensures s.requests[o].event.active == !s.requests[r].event.active
    ensures LastQueued(Unsent(Next(s, Store(o))), s.requests[o].event.target) == Some(s.requests[o].event.active)
  {
    hide Counted, KeysMean, Agreeing, LastQueued, ShardSum;
    var u, t := s.requests[o].event.target, Next(s, Store(o));
    Flipped(use, start, s, o);
    EventsAppend(s.order, o, t.requests);
    OrderKnown(s, t);
    LastQueuedAppend(Unsent(s), s.requests[o].event, u);
    forall x | x in Removed(s.order, r) && x in s.requests ensures s.requests[x].event.target != u {}
    NothingUnsent(Removed(s.order, r), s.requests, u);
    WithoutRequest(s.order, r, s.requests, u);
    HeadingOf(s, u);
  }

  // ---------------------------------------------------------------------------------------------
  // One request on its own
  // ---------------------------------------------------------------------------------------------

  /** The request has been published and its event is the only one in the queue. */
  function Published(s: State, r: nat, e: Event): State {
    Next(Next(Next(s, Begin(r, e)), Store(r)), Publish(r))
  }

  lemma PublishedAlone(s: State, r: nat, e: Event)
    requires r !in s.requests && e.target !in s.redis.actions && e.active && s.order == []
    requires var v := e.target.video; v in s.db.videos && s.db.videos[v].published && v in s.db.stats
    ensures var t := Published(s, r, e);
            && t.redis == AfterSetActionState(s.redis, e.target, true, e.key, s.db.stats[e.target.video])
            && t.db == s.db && t.queue == s.queue + [e] && t.order == []
            && t.requests == s.requests[r := Request(e, Done)]
  {
    var begun := Next(s, Begin(r, e));
    assert begun == s.(requests := s.requests[r := Request(e, Loaded(s.db.stats[e.target.video]))]);
    var stored := Next(begun, Store(r));
    assert Flips(s.redis, e);
    assert stored.order == [r] && stored.requests == s.requests[r := Request(e, Sending)];
    assert Removed([r], r) == [] + Removed([], r);
  }

  /**
   A new like or favourite of a published video, undisturbed: Redis counts one more at once, on what it counted
   before or on what the database counted, and when the worker is done the database does too.
   */
  lemma OneActionAlone(s: State, r: nat, e: Event)
    requires r !in s.requests && e.active && s.order == [] && s.queue == []
    requires e.target !in s.redis.actions && e.target !in s.db.actions
    requires var v := e.target.video;
             && v in s.db.videos && s.db.videos[v].published && v in s.db.stats
             && s.db.stats[v].likes >= 0 && s.db.stats[v].favorites >= 0
    ensures var t := Next(Published(s, r, e), Consume);
            var Target(_, v, kind) := e.target;
            var before := s.db.stats[v];
            && t.queue == [] && t.order == [] && r in t.requests && t.requests[r].phase == Done
            && e.target in t.redis.actions && t.redis.actions[e.target] == Action(true, e.key)
            && t.db.actions == s.db.actions[e.target := Action(true, e.key)]
            && t.db.stats == s.db.stats[v := if kind == Like then before.(likes := before.likes + 1)
                                             else before.(favorites := before.favorites + 1)]
            && v in t.redis.base
            && t.redis.base[v] == (if v in s.redis.base then s.redis.base[v] else before)
            && ShardSum(t.redis.shards, v, Like, 16) ==
               ShardSum(s.redis.shards, v, Like, 16) + (if kind == Like then 1 else 0)
            && ShardSum(t.redis.shards, v, Favorite, 16) ==
               ShardSum(s.redis.shards, v, Favorite, 16) + (if kind == Favorite then 1 else 0)
  {
    PublishedAlone(s, r, e);
    hide Published;
    var shard := Shard(e.target.video, ShardIndex(e.target.user), e.target.kind);
    assert Published(s, r, e).redis.shards == Increased(s.redis.shards, shard, 1);
    SumAfter(s.redis.shards, shard, 1, e.target.video, Like, 16);
    SumAfter(s.redis.shards, shard, 1, e.target.video, Favorite, 16);
  }

  /** A request for a video that is not published, or has no statistics, changes nothing but is answered. */
  lemma HiddenVideoIsRefused(s: State, r: nat, e: Event)
    requires r !in s.requests
    requires var v := e.target.video; !(v in s.db.videos && s.db.videos[v].published && v in s.db.stats)
    ensures Published(s, r, e) == s.(requests := s.requests[r := Request(e, Done)])
  {
  }
}
