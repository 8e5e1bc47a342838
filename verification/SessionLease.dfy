/**
 The session cache and its revocation lease (backend/session_cache.go).

 Any number of `loadSession` calls and `retireSessions` calls run over one database table, one Redis
 and one clock. Every atomic action of a call is a `Step`; a step that is not enabled leaves the
 state as it is, so a run is any sequence of steps. A Redis command is put "in flight" and takes
 effect at any later moment, or never: that covers success, an error, a lost reply and a command
 that outlives the call that sent it. Times are in milliseconds.
 */
module SessionLease {
  import opened Options

  type Id = nat
  type Pid = nat

  const LEASE: int := 5_000
  const ACCESS_TTL: int := 15 * 60_000
  const REFRESH_TTL: int := 7 * 24 * 3_600_000

  /** The row of one session; `revoked` stands for a non-null `revoked_at`. */
  datatype Row = Row(revoked: bool, expires: int)

  /** The two things ever stored under a session key. */
  datatype Value = Revoked | Cached(row: Row, until: int)

  datatype Entry = Entry(value: Value, expireAt: int)

  datatype Command = SetNx(id: Id, row: Row, until: int, ttl: int) | SetRevoked(id: Id)

  /** The program counter of one `loadSession` call. */
  datatype Phase =
    | Asking
    | Fetched(reply: Option<Value>)
    | Missed
    | Leased(until: int)
    | Loaded(until: int, row: Row)
    | Writing(until: int, row: Row)
    | Accepted
    | Rejected

  datatype Loader = Loader(id: Id, phase: Phase)

  /** One `retireSessions` call: the ids still to write, the ids written, and the `failed` flag. */
  datatype Retirement = Retirement(deadline: int, todo: seq<Id>, done: seq<Id>, failed: bool)

  datatype State = State(
    now: int,
    rows: map<Id, Row>,
    revokedAt: map<Id, int>,  // when the revocation of a row committed
    redis: map<Id, Entry>,
    inFlight: set<Command>,
    loaders: map<Pid, Loader>,
    retirements: map<Pid, Retirement>,
    retired: set<Id>)         // ids of every retireSessions call that has returned

  datatype Step =
    | Tick(elapsed: nat)
    | CreateSession(id: Id, expires: int)
    | RefreshSession(id: Id, expires: int)
    | CommitRevocation(ids: set<Id>)
    | DropCached(id: Id)
    | Execute(command: Command)
    | BeginLoad(pid: Pid, id: Id)
    | Get(pid: Pid, redisUp: bool)
    | Judge(pid: Pid)
    | TakeLease(pid: Pid)
    | ReadRow(pid: Pid, dbUp: bool)
    | CheckRow(pid: Pid)
    | WriteCache(pid: Pid)
    | BeginRetire(pid: Pid, sids: seq<Id>)
    | WriteRevoked(pid: Pid, acknowledged: bool)
    | FinishRetire(pid: Pid)

  const INIT := State(0, map[], map[], map[], {}, map[], map[], {})

  /** What Redis answers for a key at this moment: an expired entry is no entry. */
  function Live(s: State, id: Id): Option<Value> {
    if id in s.redis && s.now < s.redis[id].expireAt then Some(s.redis[id].value) else None
  }

  function SetLoader(s: State, pid: Pid, phase: Phase): State
    requires pid in s.loaders
  {
    s.(loaders := s.loaders[pid := s.loaders[pid].(phase := phase)])
  }

  predicate At(s: State, pid: Pid) {
    pid in s.loaders
  }

  function ExecuteCommand(s: State, c: Command): State {
    match c
    case SetNx(id, row, until, ttl) =>
      if Live(s, id).None? then s.(redis := s.redis[id := Entry(Cached(row, until), s.now + ttl)]) else s
    case SetRevoked(id) =>
      s.(redis := s.redis[id := Entry(Revoked, s.now + REFRESH_TTL + ACCESS_TTL)])
  }

  function CommitRevoked(s: State, ids: set<Id>): State {
    s.(rows := map id | id in s.rows :: if id in ids then s.rows[id].(revoked := true) else s.rows[id],
       revokedAt := map id | id in s.rows && (id in ids || id in s.revokedAt) ::
         if id in s.revokedAt then s.revokedAt[id] else s.now)
  }

  /** `loadSession`, one atomic action at a time. */
  function NextLoad(s: State, step: Step): State {
    match step
    case BeginLoad(pid, id) =>
      if pid in s.loaders then s else s.(loaders := s.loaders[pid := Loader(id, Asking)])
    case Get(pid, redisUp) =>
      if At(s, pid) && s.loaders[pid].phase.Asking? then
        SetLoader(s, pid, if redisUp then Fetched(Live(s, s.loaders[pid].id)) else Missed)
      else s
    case Judge(pid) =>
      if At(s, pid) && s.loaders[pid].phase.Fetched? then
        SetLoader(s, pid, match s.loaders[pid].phase.reply
                          case None => Missed
                          case Some(Revoked) => Rejected
                          case Some(Cached(_, until)) => if s.now < until then Accepted else Missed)
      else s
    case TakeLease(pid) =>
      if At(s, pid) && s.loaders[pid].phase.Missed? then SetLoader(s, pid, Leased(s.now + LEASE)) else s
    case ReadRow(pid, dbUp) =>
      if At(s, pid) && s.loaders[pid].phase.Leased? then
        var id := s.loaders[pid].id;
        SetLoader(s, pid, if dbUp && id in s.rows then Loaded(s.loaders[pid].phase.until, s.rows[id]) else Rejected)
      else s
    case CheckRow(pid) =>
      if At(s, pid) && s.loaders[pid].phase.Loaded? then
        var Loaded(until, row) := s.loaders[pid].phase;
        SetLoader(s, pid, if row.revoked || s.now >= row.expires then Rejected else Writing(until, row))
      else s
    case WriteCache(pid) =>
      if At(s, pid) && s.loaders[pid].phase.Writing? then
        var Writing(until, row) := s.loaders[pid].phase;
        var ttl := until - s.now;
        var sent := if ttl > 0 then {SetNx(s.loaders[pid].id, row, until, ttl)} else {};
        SetLoader(s, pid, Accepted).(inFlight := s.inFlight + sent)
      else s
    case _ => s
  }

  /** A write of "revoked": carried out if it is acknowledged, otherwise sent and perhaps carried out later. */
  function AfterWrite(s: State, id: Id, acknowledged: bool): State {
    if acknowledged then ExecuteCommand(s, SetRevoked(id)) else s.(inFlight := s.inFlight + {SetRevoked(id)})
  }

  /** `retireSessions`: called only for sessions whose revocation has committed. */
  function NextRetire(s: State, step: Step): State {
    match step
    case BeginRetire(pid, sids) =>
      if pid in s.retirements || exists id | id in sids :: id !in s.rows || !s.rows[id].revoked then s
      else s.(retirements := s.retirements[pid := Retirement(s.now + LEASE, sids, [], false)])
    case WriteRevoked(pid, acknowledged) =>
      if pid in s.retirements && s.retirements[pid].todo != [] then
        var r := s.retirements[pid];
        var id := r.todo[0];
        var r' := Retirement(r.deadline, r.todo[1..], r.done + [id], r.failed || !acknowledged);
        var u := AfterWrite(s, id, acknowledged);
        u.(retirements := u.retirements[pid := r'])
      else s
    case FinishRetire(pid) =>
      if pid in s.retirements && s.retirements[pid].todo == [] &&
         (s.retirements[pid].failed ==> s.retirements[pid].deadline <= s.now) then
        s.(retired := s.retired + set id | id in s.retirements[pid].done)
      else s
    case _ => s
  }

  /** A cached row may vanish from Redis at any time, a "revoked" one lease after its revocation. */
  predicate MayDrop(s: State, id: Id)
    requires id in s.redis
  {
    s.redis[id].value.Cached? || (id in s.revokedAt && s.revokedAt[id] + LEASE <= s.now)
  }

  function Next(s: State, step: Step): State {
    match step
    case Tick(elapsed) => s.(now := s.now + elapsed)
    case CreateSession(id, expires) =>
      if id in s.rows then s else s.(rows := s.rows[id := Row(false, expires)])
    case RefreshSession(id, expires) =>
      if id in s.rows && !s.rows[id].revoked then s.(rows := s.rows[id := Row(false, expires)]) else s
    case CommitRevocation(ids) => CommitRevoked(s, ids)
    case DropCached(id) =>
      if id in s.redis && MayDrop(s, id) then s.(redis := s.redis - {id}) else s
    case Execute(command) => if command in s.inFlight then ExecuteCommand(s, command) else s
    case BeginRetire(_, _) => NextRetire(s, step)
    case WriteRevoked(_, _) => NextRetire(s, step)
    case FinishRetire(_) => NextRetire(s, step)
    case _ => NextLoad(s, step)
  }

  function Run(s: State, steps: seq<Step>): State
    decreases |steps|
  {
    if steps == [] then s else Run(Next(s, steps[0]), steps[1..])
  }

  // ---------------------------------------------------------------------------------------------
  // The invariant
  // ---------------------------------------------------------------------------------------------

  ghost predicate IsRevoked(s: State, id: Id) {
    id in s.rows && s.rows[id].revoked
  }

  /** No lease taken before the revocation committed, or taken so far, ends after this. */
  ghost function Horizon(s: State, id: Id): int {
    if id in s.revokedAt then s.revokedAt[id] + LEASE else s.now + LEASE
  }

  ghost predicate RowsOk(s: State) {
    && (forall id :: IsRevoked(s, id) <==> id in s.revokedAt)
    && (forall id | id in s.revokedAt :: s.revokedAt[id] <= s.now)
  }

  /** A loader that has seen an unrevoked row holds a lease within the horizon. */
  ghost predicate LoaderOk(s: State, l: Loader) {
    match l.phase
    case Fetched(Some(Cached(_, until))) => until <= Horizon(s, l.id)
    case Leased(until) => until <= s.now + LEASE
    case Loaded(until, row) =>
      until <= s.now + LEASE && (!row.revoked ==> until <= Horizon(s, l.id))
    case Writing(until, row) => until <= Horizon(s, l.id)
    case _ => true
  }

  ghost predicate CommandOk(s: State, c: Command) {
    match c
    case SetNx(id, _, until, _) => until <= Horizon(s, id)
    case SetRevoked(id) => IsRevoked(s, id)
  }

  ghost predicate EntryOk(s: State, id: Id) {
    id in s.redis ==>
      match s.redis[id].value
      case Cached(_, until) => until <= Horizon(s, id)
      case Revoked => IsRevoked(s, id) && Horizon(s, id) <= s.redis[id].expireAt
  }

  /** The session can no longer come back from the cache: its key says so, or every lease is over. */
  ghost predicate Shielded(s: State, id: Id) {
    && IsRevoked(s, id)
    && (Horizon(s, id) <= s.now ||
        (id in s.redis && s.redis[id].value.Revoked? && Horizon(s, id) <= s.redis[id].expireAt))
  }

  ghost predicate RetirementOk(s: State, r: Retirement) {
    && (forall id | id in r.todo || id in r.done :: IsRevoked(s, id) && Horizon(s, id) <= r.deadline)
    && (!r.failed ==> forall id | id in r.done :: Shielded(s, id))
  }

  ghost predicate Inv(s: State) {
    && RowsOk(s)
    && (forall pid | pid in s.loaders :: LoaderOk(s, s.loaders[pid]))
    && (forall c | c in s.inFlight :: CommandOk(s, c))
    && (forall id :: EntryOk(s, id))
    && (forall pid | pid in s.retirements :: RetirementOk(s, s.retirements[pid]))
    && (forall id | id in s.retired :: Shielded(s, id))
  }

  /** A call that began after `id` was retired and has not been, and will not be, deceived. */
  ghost predicate NotDeceived(s: State, l: Loader) {
    match l.phase
    case Accepted => false
    case Writing(_, _) => false
    case Loaded(_, row) => row.revoked
    case Fetched(Some(Cached(_, until))) => until <= s.now
    case _ => true
  }

  // ---------------------------------------------------------------------------------------------
  // Every step keeps the invariant
  // ---------------------------------------------------------------------------------------------

  /** What every step may do to rows, horizons and shields; everything else follows from it. */
  ghost predicate Monotone(s: State, t: State) {
    && s.now <= t.now
    && (forall id | IsRevoked(s, id) :: IsRevoked(t, id) && Horizon(t, id) == Horizon(s, id))
    && (forall id :: Horizon(s, id) <= Horizon(t, id))
    && (forall id | Shielded(s, id) :: Shielded(t, id))
  }

  /** Writing a key changes neither rows nor horizons, so only that key's entry has to be looked at. */
  lemma RedisFrame(s: State, t: State, key: Id)
    requires Inv(s) && t == s.(redis := t.redis) && EntryOk(t, key) && (Shielded(s, key) ==> Shielded(t, key))
    requires forall id | id != key ::
               (id in t.redis <==> id in s.redis) && (id in s.redis ==> t.redis[id] == s.redis[id])
    ensures Inv(t) && Monotone(s, t)
  {
    assert forall id :: IsRevoked(t, id) <==> IsRevoked(s, id);
    assert forall id :: Horizon(t, id) == Horizon(s, id);
    forall id ensures EntryOk(t, id) {
      assert EntryOk(s, id);
    }
    assert forall id :: Shielded(s, id) ==> Shielded(t, id);
  }

  lemma ExecuteKeeps(s: State, c: Command)
    requires Inv(s) && CommandOk(s, c)
    ensures Inv(ExecuteCommand(s, c)) && Monotone(s, ExecuteCommand(s, c))
    ensures c.SetRevoked? ==> Shielded(ExecuteCommand(s, c), c.id)
  {
    var t := ExecuteCommand(s, c);
    assert EntryOk(s, c.id) && (IsRevoked(s, c.id) <==> c.id in s.revokedAt);
    assert Horizon(t, c.id) == Horizon(s, c.id);
    assert c.id in s.revokedAt ==> s.revokedAt[c.id] <= s.now;
    hide Inv;
    RedisFrame(s, t, c.id);
  }

  lemma InFlightKeeps(s: State, c: Command)
    requires Inv(s) && c in s.inFlight
    ensures Inv(ExecuteCommand(s, c)) && Monotone(s, ExecuteCommand(s, c))
  {
    ExecuteKeeps(s, c);
  }

  lemma CommitKeeps(s: State, ids: set<Id>)
    requires Inv(s)
    ensures Inv(CommitRevoked(s, ids)) && Monotone(s, CommitRevoked(s, ids))
  {
    var t := CommitRevoked(s, ids);
    forall id ensures Horizon(s, id) == Horizon(t, id) {
      assert IsRevoked(s, id) <==> id in s.revokedAt;
    }
    forall id | Shielded(s, id) ensures Shielded(t, id) {
    }
    forall id ensures EntryOk(t, id) {
      assert EntryOk(s, id);
    }
  }

  /** Steps that leave clock, rows and Redis alone keep every fact about them. */
  lemma SameStoresFrame(s: State, t: State)
    requires Inv(s) && t == s.(loaders := t.loaders, inFlight := t.inFlight)
    ensures RowsOk(t) && Monotone(s, t)
    ensures forall id :: EntryOk(t, id)
    ensures forall pid | pid in t.retirements :: RetirementOk(t, t.retirements[pid])
    ensures forall id | id in t.retired :: Shielded(t, id)
    ensures forall l :: LoaderOk(s, l) ==> LoaderOk(t, l)
    ensures forall c :: CommandOk(s, c) ==> CommandOk(t, c)
  {
    assert forall id :: IsRevoked(s, id) <==> IsRevoked(t, id);
    assert forall id :: Horizon(s, id) == Horizon(t, id);
    assert forall id :: EntryOk(s, id) ==> EntryOk(t, id);
    assert forall id :: Shielded(s, id) <==> Shielded(t, id);
    assert forall r :: RetirementOk(s, r) ==> RetirementOk(t, r);
    assert forall l :: LoaderOk(s, l) ==> LoaderOk(t, l);
    assert forall c :: CommandOk(s, c) ==> CommandOk(t, c);
  }

  /** What is known of a call, its key and its session's revocation. */
  ghost predicate Known(s: State, pid: Pid) {
    pid in s.loaders ==>
      var id := s.loaders[pid].id;
      && LoaderOk(s, s.loaders[pid]) && EntryOk(s, id)
      && (IsRevoked(s, id) <==> id in s.revokedAt)
      && (id in s.revokedAt ==> s.revokedAt[id] <= s.now)
  }

  /** Only the call that moves can matter: its new phase, and the command it sends. */
  ghost predicate Moved(s: State, t: State, pid: Pid) {
    && t == s.(loaders := t.loaders, inFlight := t.inFlight)
    && (forall p | p in t.loaders :: p in s.loaders && (p != pid ==> t.loaders[p] == s.loaders[p]))
    && (pid in t.loaders ==> LoaderOk(s, t.loaders[pid]))
    && (forall c | c in t.inFlight :: c in s.inFlight || CommandOk(s, c))
  }

  lemma GetMoves(s: State, pid: Pid, redisUp: bool)
    requires Known(s, pid)
    ensures Moved(s, NextLoad(s, Get(pid, redisUp)), pid)
  {
    hide Shielded, RetirementOk;
  }

  lemma JudgeMoves(s: State, pid: Pid)
    requires Known(s, pid)
    ensures Moved(s, NextLoad(s, Judge(pid)), pid)
  {
    hide Shielded, RetirementOk;
  }

  lemma TakeLeaseMoves(s: State, pid: Pid)
    requires Known(s, pid)
    ensures Moved(s, NextLoad(s, TakeLease(pid)), pid)
  {
    hide Shielded, RetirementOk;
  }

  lemma ReadRowMoves(s: State, pid: Pid, dbUp: bool)
    requires Known(s, pid)
    ensures Moved(s, NextLoad(s, ReadRow(pid, dbUp)), pid)
  {
    hide Shielded, RetirementOk;
  }

  lemma CheckRowMoves(s: State, pid: Pid)
    requires Known(s, pid)
    ensures Moved(s, NextLoad(s, CheckRow(pid)), pid)
  {
    hide Shielded, RetirementOk;
  }

  lemma WriteCacheMoves(s: State, pid: Pid)
    requires Known(s, pid)
    ensures Moved(s, NextLoad(s, WriteCache(pid)), pid)
  {
    hide Shielded, RetirementOk;
  }

  lemma LoaderMoves(s: State, step: Step, pid: Pid)
    requires Inv(s)
    requires step == Get(pid, true) || step == Get(pid, false) || step == Judge(pid) || step == TakeLease(pid) ||
             step == ReadRow(pid, true) || step == ReadRow(pid, false) ||
             step == CheckRow(pid) || step == WriteCache(pid)
    ensures Moved(s, NextLoad(s, step), pid)
  {
    hide NextLoad, Moved;
    assert Known(s, pid);
    hide Inv, Known;
    match step {
      case Get(_, redisUp) => GetMoves(s, pid, redisUp);
      case Judge(_) => JudgeMoves(s, pid);
      case TakeLease(_) => TakeLeaseMoves(s, pid);
      case ReadRow(_, dbUp) => ReadRowMoves(s, pid, dbUp);
      case CheckRow(_) => CheckRowMoves(s, pid);
      case WriteCache(_) => WriteCacheMoves(s, pid);
    }
  }

  lemma LoaderMoveKeeps(s: State, step: Step, pid: Pid)
    requires Inv(s)
    requires step == Get(pid, true) || step == Get(pid, false) || step == Judge(pid) || step == TakeLease(pid) ||
             step == ReadRow(pid, true) || step == ReadRow(pid, false) ||
             step == CheckRow(pid) || step == WriteCache(pid)
    ensures Inv(NextLoad(s, step)) && Monotone(s, NextLoad(s, step))
  {
    hide NextLoad, Shielded, Horizon, EntryOk, RetirementOk, Monotone, CommandOk, LoaderOk, RowsOk;
    LoaderMoves(s, step, pid);
    SameStoresFrame(s, NextLoad(s, step));
  }

  lemma BeginLoadKeeps(s: State, pid: Pid, id: Id)
    requires Inv(s)
    ensures Inv(NextLoad(s, BeginLoad(pid, id))) && Monotone(s, NextLoad(s, BeginLoad(pid, id)))
  {
    hide Shielded, Horizon, EntryOk, RetirementOk, Monotone, CommandOk, RowsOk;
    SameStoresFrame(s, NextLoad(s, BeginLoad(pid, id)));
  }

  lemma LoadKeeps(s: State, step: Step)
    requires Inv(s)
    ensures Inv(NextLoad(s, step)) && Monotone(s, NextLoad(s, step))
  {
    hide Inv, NextLoad, Monotone;
    match step {
      case BeginLoad(pid, id) => BeginLoadKeeps(s, pid, id);
      case Get(pid, _) => LoaderMoveKeeps(s, step, pid);
      case Judge(pid) => LoaderMoveKeeps(s, step, pid);
      case TakeLease(pid) => LoaderMoveKeeps(s, step, pid);
      case ReadRow(pid, _) => LoaderMoveKeeps(s, step, pid);
      case CheckRow(pid) => LoaderMoveKeeps(s, step, pid);
      case WriteCache(pid) => LoaderMoveKeeps(s, step, pid);
      case _ => OtherStepLoadsNothing(s, step);
    }
  }

  lemma OtherStepLoadsNothing(s: State, step: Step)
    requires !step.BeginLoad? && !step.Get? && !step.Judge? && !step.TakeLease? && !step.ReadRow?
    requires !step.CheckRow? && !step.WriteCache?
    ensures NextLoad(s, step) == s && Monotone(s, s)
  {
  }

  /** The same for steps that touch retirements only. */
  lemma SameCacheFrame(s: State, t: State)
    requires Inv(s) && t == s.(retirements := t.retirements, retired := t.retired, inFlight := t.inFlight)
    ensures RowsOk(t) && Monotone(s, t)
    ensures forall id :: EntryOk(t, id)
    ensures forall pid | pid in t.loaders :: LoaderOk(t, t.loaders[pid])
    ensures forall r :: RetirementOk(s, r) ==> RetirementOk(t, r)
    ensures forall c :: CommandOk(s, c) ==> CommandOk(t, c)
  {
    assert forall id :: IsRevoked(s, id) <==> IsRevoked(t, id);
    assert forall id :: Horizon(s, id) == Horizon(t, id);
    assert forall id :: EntryOk(s, id) ==> EntryOk(t, id);
    assert forall id :: Shielded(s, id) <==> Shielded(t, id);
    assert forall r :: RetirementOk(s, r) ==> RetirementOk(t, r);
    assert forall l :: LoaderOk(s, l) ==> LoaderOk(t, l);
    assert forall c :: CommandOk(s, c) ==> CommandOk(t, c);
  }

  lemma BeginRetireKeeps(s: State, pid: Pid, sids: seq<Id>)
    requires Inv(s)
    ensures Inv(NextRetire(s, BeginRetire(pid, sids))) && Monotone(s, NextRetire(s, BeginRetire(pid, sids)))
  {
    var t := NextRetire(s, BeginRetire(pid, sids));
    SameCacheFrame(s, t);
    if t != s {
      var r := t.retirements[pid];
      forall id | id in r.todo ensures IsRevoked(s, id) && Horizon(s, id) <= r.deadline {
        assert id in s.revokedAt;
      }
      assert RetirementOk(s, r);
    }
  }

  lemma FinishRetireKeeps(s: State, pid: Pid)
    requires Inv(s)
    ensures Inv(NextRetire(s, FinishRetire(pid))) && Monotone(s, NextRetire(s, FinishRetire(pid)))
  {
    var t := NextRetire(s, FinishRetire(pid));
    SameCacheFrame(s, t);
    if t != s {
      var r := s.retirements[pid];
      assert RetirementOk(s, r);
      forall id | id in t.retired ensures Shielded(s, id) {
        if id !in s.retired { assert id in r.done; }
      }
    }
  }

  /** The id just written moves from `todo` to `done`; the flag says whether the write was acknowledged. */
  lemma WrittenRetirementOk(s: State, u: State, r: Retirement, acknowledged: bool)
    requires Monotone(s, u) && RetirementOk(s, r) && r.todo != []
    requires acknowledged ==> Shielded(u, r.todo[0])
    ensures RetirementOk(u, Retirement(r.deadline, r.todo[1..], r.done + [r.todo[0]], r.failed || !acknowledged))
  {
    var r' := Retirement(r.deadline, r.todo[1..], r.done + [r.todo[0]], r.failed || !acknowledged);
    assert forall i | i in r'.todo || i in r'.done :: i in r.todo || i in r.done;
    assert forall i | i in r'.done :: i in r.done || i == r.todo[0];
  }

  /** A write that is sent and not answered may still be carried out later. */
  lemma SendKeeps(s: State, id: Id, acknowledged: bool)
    requires Inv(s) && CommandOk(s, SetRevoked(id))
    ensures var u := AfterWrite(s, id, acknowledged);
      Inv(u) && Monotone(s, u) && (acknowledged ==> Shielded(u, id))
  {
    if acknowledged {
      ExecuteKeeps(s, SetRevoked(id));
    } else {
      SameCacheFrame(s, AfterWrite(s, id, false));
    }
  }

  lemma RetirementMoves(s: State, pid: Pid, r: Retirement)
    requires Inv(s) && RetirementOk(s, r)
    ensures var t := s.(retirements := s.retirements[pid := r]); Inv(t) && Monotone(s, t)
  {
    SameCacheFrame(s, s.(retirements := s.retirements[pid := r]));
  }

  lemma MonotoneChain(s: State, t: State, u: State)
    requires Monotone(s, t) && Monotone(t, u)
    ensures Monotone(s, u)
  {
  }

  lemma WriteRevokedKeeps(s: State, pid: Pid, acknowledged: bool)
    requires Inv(s)
    ensures Inv(NextRetire(s, WriteRevoked(pid, acknowledged)))
    ensures Monotone(s, NextRetire(s, WriteRevoked(pid, acknowledged)))
  {
    if pid in s.retirements && s.retirements[pid].todo != [] {
      hide Inv, Shielded, Horizon;
      var r := s.retirements[pid];
      WritableIsRevoked(s, pid);
      var u := AfterWrite(s, r.todo[0], acknowledged);
      var r' := Retirement(r.deadline, r.todo[1..], r.done + [r.todo[0]], r.failed || !acknowledged);
      SendKeeps(s, r.todo[0], acknowledged);
      WrittenRetirementOk(s, u, r, acknowledged);
      RetirementMoves(u, pid, r');
      MonotoneChain(s, u, u.(retirements := u.retirements[pid := r']));
    }
  }

  lemma WritableIsRevoked(s: State, pid: Pid)
    requires Inv(s) && pid in s.retirements && s.retirements[pid].todo != []
    ensures RetirementOk(s, s.retirements[pid]) && CommandOk(s, SetRevoked(s.retirements[pid].todo[0]))
  {
    var r := s.retirements[pid];
    assert RetirementOk(s, r) && r.todo[0] in r.todo;
  }

  lemma TickKeeps(s: State, elapsed: nat)
    requires Inv(s)
    ensures Inv(Next(s, Tick(elapsed))) && Monotone(s, Next(s, Tick(elapsed)))
  {
    var t := Next(s, Tick(elapsed));
    forall id ensures Horizon(s, id) <= Horizon(t, id) && (IsRevoked(s, id) ==> Horizon(s, id) == Horizon(t, id)) {
      assert IsRevoked(s, id) <==> id in s.revokedAt;
    }
    forall id ensures EntryOk(t, id) { assert EntryOk(s, id); }
    forall pid | pid in s.retirements ensures RetirementOk(t, s.retirements[pid]) {
      assert RetirementOk(s, s.retirements[pid]);
    }
  }

  /** Rows may appear or change their expiry, as long as no revocation comes or goes. */
  lemma SameRevocationsFrame(s: State, t: State)
    requires Inv(s) && t == s.(rows := t.rows)
    requires forall id :: IsRevoked(s, id) <==> IsRevoked(t, id)
    ensures Inv(t) && Monotone(s, t)
  {
    assert forall id :: Horizon(s, id) == Horizon(t, id);
    assert forall id :: EntryOk(s, id) ==> EntryOk(t, id);
    assert forall id :: Shielded(s, id) <==> Shielded(t, id);
    assert forall r :: RetirementOk(s, r) ==> RetirementOk(t, r);
    assert forall l :: LoaderOk(s, l) ==> LoaderOk(t, l);
    assert forall c :: CommandOk(s, c) ==> CommandOk(t, c);
  }

  lemma DropKeeps(s: State, id: Id)
    requires Inv(s)
    ensures Inv(Next(s, DropCached(id))) && Monotone(s, Next(s, DropCached(id)))
  {
    var t := Next(s, DropCached(id));
    assert forall i :: Horizon(s, i) == Horizon(t, i);
    assert forall i :: EntryOk(s, i) ==> EntryOk(t, i);
    assert forall i :: Shielded(s, i) ==> Shielded(t, i);
    assert forall r :: RetirementOk(s, r) ==> RetirementOk(t, r);
    assert forall l :: LoaderOk(s, l) ==> LoaderOk(t, l);
    assert forall c :: CommandOk(s, c) ==> CommandOk(t, c);
  }

  lemma StepKeeps(s: State, step: Step)
    requires Inv(s)
    ensures Inv(Next(s, step)) && Monotone(s, Next(s, step))
  {
    hide Inv, Shielded, Horizon, NextLoad, NextRetire, ExecuteCommand;
    match step {
      case Tick(elapsed) => TickKeeps(s, elapsed);
      case CreateSession(_, _) => SameRevocationsFrame(s, Next(s, step));
      case RefreshSession(_, _) => SameRevocationsFrame(s, Next(s, step));
      case DropCached(id) => DropKeeps(s, id);
      case CommitRevocation(ids) => CommitKeeps(s, ids);
      case Execute(command) => if command in s.inFlight { InFlightKeeps(s, command); }
      case BeginRetire(pid, sids) => BeginRetireKeeps(s, pid, sids);
      case WriteRevoked(pid, acknowledged) => WriteRevokedKeeps(s, pid, acknowledged);
      case FinishRetire(pid) => FinishRetireKeeps(s, pid);
      case _ => LoadKeeps(s, step);
    }
  }

  /** Every reachable state of every run satisfies the invariant. */
  lemma {:induction false} RunKeeps(s: State, steps: seq<Step>)
    requires Inv(s)
    ensures Inv(Run(s, steps)) && Monotone(s, Run(s, steps))
    decreases |steps|
  {
    if steps == [] {
    } else {
      StepKeeps(s, steps[0]);
      RunKeeps(Next(s, steps[0]), steps[1..]);
    }
  }

  // ---------------------------------------------------------------------------------------------
  // Main results
  // ---------------------------------------------------------------------------------------------

  /**
   In every reachable state, a retired session is revoked in the database and either its key says
   "revoked" or every lease under that key, in flight to it or already fetched from it has ended.
   */
  lemma RetiredIsShielded(steps: seq<Step>, id: Id)
    requires id in Run(INIT, steps).retired
    ensures var s := Run(INIT, steps);
      && IsRevoked(s, id)
      && (Live(s, id) == Some(Revoked) ||
          ((Live(s, id).Some? ==> Live(s, id).value.Cached? && Live(s, id).value.until <= s.now) &&
           forall c | c in s.inFlight && c.SetNx? && c.id == id :: c.until <= s.now))
  {
    RunKeeps(INIT, steps);
    var s := Run(INIT, steps);
    assert Shielded(s, id) && EntryOk(s, id);
  }

  lemma LateLoadMoves(s: State, step: Step, pid: Pid)
    requires pid in NextLoad(s, step).loaders
    requires var id := NextLoad(s, step).loaders[pid].id; Shielded(s, id) && EntryOk(s, id)
    requires pid in s.loaders ==> NotDeceived(s, s.loaders[pid])
    ensures NotDeceived(NextLoad(s, step), NextLoad(s, step).loaders[pid])
  {
  }

  lemma LateLoadStep(s: State, step: Step, pid: Pid)
    requires pid in Next(s, step).loaders
    requires var id := Next(s, step).loaders[pid].id; Shielded(s, id) && EntryOk(s, id)
    requires pid in s.loaders ==> NotDeceived(s, s.loaders[pid])
    ensures NotDeceived(Next(s, step), Next(s, step).loaders[pid])
  {
    var t := Next(s, step);
    if t == NextLoad(s, step) {
      LateLoadMoves(s, step, pid);
    } else {
      assert t.loaders == s.loaders && s.now <= t.now;
    }
  }

  /** One step of a run after the retirement: the invariant, the retired set and the call survive. */
  lemma LateLoadOnce(s: State, step: Step, pid: Pid, id: Id)
    requires Inv(s) && id in s.retired
    requires pid in Next(s, step).loaders ==> Next(s, step).loaders[pid].id == id
    requires pid in s.loaders ==> NotDeceived(s, s.loaders[pid])
    ensures id in Next(s, step).retired
    ensures pid in Next(s, step).loaders ==> NotDeceived(Next(s, step), Next(s, step).loaders[pid])
  {
    assert Shielded(s, id) && EntryOk(s, id);
    if pid in Next(s, step).loaders {
      LateLoadStep(s, step, pid);
    }
  }

  lemma {:induction false} LateLoadRun(s: State, steps: seq<Step>, pid: Pid, id: Id)
    requires Inv(s) && id in s.retired
    requires pid in Run(s, steps).loaders && Run(s, steps).loaders[pid].id == id
    requires pid in s.loaders ==> NotDeceived(s, s.loaders[pid])
    ensures NotDeceived(Run(s, steps), Run(s, steps).loaders[pid])
    decreases |steps|
  {
    if steps != [] {
      var t := Next(s, steps[0]);
      if pid in t.loaders {
        LoadersPersist(t, steps[1..], pid);
      }
      LateLoadOnce(s, steps[0], pid, id);
      StepKeeps(s, steps[0]);
      LateLoadRun(t, steps[1..], pid, id);
    }
  }

  lemma LoaderPersists(s: State, step: Step, pid: Pid)
    requires pid in s.loaders
    ensures pid in Next(s, step).loaders && Next(s, step).loaders[pid].id == s.loaders[pid].id
  {
  }

  /** A call keeps its session id until the end of the run. */
  lemma {:induction false} LoadersPersist(s: State, steps: seq<Step>, pid: Pid)
    requires pid in s.loaders
    ensures pid in Run(s, steps).loaders && Run(s, steps).loaders[pid].id == s.loaders[pid].id
    decreases |steps|
  {
    if steps != [] {
      LoaderPersists(s, steps[0], pid);
      LoadersPersist(Next(s, steps[0]), steps[1..], pid);
    }
  }

  /**
   Safety over all runs: once `retireSessions` has returned for a session, no `loadSession` that
   begins later accepts it, whatever Redis loses, delays or expires and whoever else is running.
   */
  lemma NoLateAcceptance(before: seq<Step>, after: seq<Step>, pid: Pid)
    requires pid !in Run(INIT, before).loaders
    requires pid in Run(Run(INIT, before), after).loaders
    requires Run(Run(INIT, before), after).loaders[pid].id in Run(INIT, before).retired
    ensures !Run(Run(INIT, before), after).loaders[pid].phase.Accepted?
  {
    RunKeeps(INIT, before);
    LateLoadRun(Run(INIT, before), after, pid, Run(Run(INIT, before), after).loaders[pid].id);
  }

  // ---------------------------------------------------------------------------------------------
  // How a load comes to be accepted
  // ---------------------------------------------------------------------------------------------

  /** The call reads this row from the database. */
  predicate ReadsRow(s: State, step: Step, pid: Pid, row: Row) {
    && step == ReadRow(pid, true) && pid in s.loaders && s.loaders[pid].phase.Leased?
    && s.loaders[pid].id in s.rows && s.rows[s.loaders[pid].id] == row
  }

  /** The call looks at the row it has read, which is neither revoked nor expired at that moment. */
  predicate PassesCheck(s: State, step: Step, pid: Pid, row: Row) {
    && step == CheckRow(pid) && pid in s.loaders && s.loaders[pid].phase.Loaded?
    && s.loaders[pid].phase.row == row && !row.revoked && s.now < row.expires
  }

  /** The call judges a cached value whose lease has not ended. */
  predicate ServesCached(s: State, step: Step, pid: Pid) {
    && step == Judge(pid) && pid in s.loaders && s.loaders[pid].phase.Fetched?
    && match s.loaders[pid].phase.reply
       case Some(Cached(_, until)) => s.now < until
       case _ => false
  }

  lemma PhaseFrom(s: State, step: Step, pid: Pid)
    requires pid in Next(s, step).loaders
    ensures var q := Next(s, step).loaders[pid].phase;
            (pid in s.loaders && s.loaders[pid].phase == q) ||
            match q
            case Loaded(_, row) => ReadsRow(s, step, pid, row)
            case Writing(until, row) =>
              pid in s.loaders && s.loaders[pid].phase == Loaded(until, row) && PassesCheck(s, step, pid, row)
            case Accepted => ServesCached(s, step, pid) || (pid in s.loaders && s.loaders[pid].phase.Writing?)
            case _ => true
  {
  }

  ghost predicate WasRead(steps: seq<Step>, pid: Pid, row: Row) {
    exists i :: 0 <= i < |steps| && ReadsRow(Run(INIT, steps[..i]), steps[i], pid, row)
  }

  ghost predicate WasReadAndChecked(steps: seq<Step>, pid: Pid, row: Row) {
    exists i, j :: 0 <= i < j < |steps| && ReadsRow(Run(INIT, steps[..i]), steps[i], pid, row) &&
                   PassesCheck(Run(INIT, steps[..j]), steps[j], pid, row)
  }

  ghost predicate WasServedCached(steps: seq<Step>, pid: Pid) {
    exists i :: 0 <= i < |steps| && ServesCached(Run(INIT, steps[..i]), steps[i], pid)
  }

  lemma HistoryGrows(steps: seq<Step>, step: Step, pid: Pid)
    ensures forall row :: WasRead(steps, pid, row) ==> WasRead(steps + [step], pid, row)
    ensures forall row :: WasReadAndChecked(steps, pid, row) ==> WasReadAndChecked(steps + [step], pid, row)
    ensures WasServedCached(steps, pid) ==> WasServedCached(steps + [step], pid)
  {
    hide Run, ReadsRow, PassesCheck, ServesCached;
    var more := steps + [step];
    assert forall i | 0 <= i < |steps| :: more[i] == steps[i] && more[..i] == steps[..i];
    forall row | WasRead(steps, pid, row) ensures WasRead(more, pid, row) {
      var i :| 0 <= i < |steps| && ReadsRow(Run(INIT, steps[..i]), steps[i], pid, row);
      assert ReadsRow(Run(INIT, more[..i]), more[i], pid, row);
    }
    forall row | WasReadAndChecked(steps, pid, row) ensures WasReadAndChecked(more, pid, row) {
      var i, j :| 0 <= i < j < |steps| && ReadsRow(Run(INIT, steps[..i]), steps[i], pid, row) &&
                  PassesCheck(Run(INIT, steps[..j]), steps[j], pid, row);
      assert ReadsRow(Run(INIT, more[..i]), more[i], pid, row) && PassesCheck(Run(INIT, more[..j]), more[j], pid, row);
    }
    if WasServedCached(steps, pid) {
      var i :| 0 <= i < |steps| && ServesCached(Run(INIT, steps[..i]), steps[i], pid);
      assert ServesCached(Run(INIT, more[..i]), more[i], pid);
    }
  }

  lemma HappensNow(steps: seq<Step>, step: Step, pid: Pid)
    ensures forall row :: ReadsRow(Run(INIT, steps), step, pid, row) ==> WasRead(steps + [step], pid, row)
    ensures forall row :: WasRead(steps, pid, row) && PassesCheck(Run(INIT, steps), step, pid, row) ==>
                            WasReadAndChecked(steps + [step], pid, row)
    ensures ServesCached(Run(INIT, steps), step, pid) ==> WasServedCached(steps + [step], pid)
  {
    hide Run, ReadsRow, PassesCheck, ServesCached;
    var more, n := steps + [step], |steps|;
    assert more[n] == step && more[..n] == steps;
    assert forall i | 0 <= i < n :: more[i] == steps[i] && more[..i] == steps[..i];
    forall row | WasRead(steps, pid, row) && PassesCheck(Run(INIT, steps), step, pid, row)
      ensures WasReadAndChecked(more, pid, row)
    {
      var i :| 0 <= i < n && ReadsRow(Run(INIT, steps[..i]), steps[i], pid, row);
      assert ReadsRow(Run(INIT, more[..i]), more[i], pid, row) && PassesCheck(Run(INIT, more[..n]), more[n], pid, row);
    }
  }

  ghost predicate Accountable(steps: seq<Step>, pid: Pid) {
    pid in Run(INIT, steps).loaders ==>
      match Run(INIT, steps).loaders[pid].phase
      case Loaded(_, row) => WasRead(steps, pid, row)
      case Writing(_, row) => WasReadAndChecked(steps, pid, row)
      case Accepted => WasServedCached(steps, pid) || exists row :: WasReadAndChecked(steps, pid, row)
      case _ => true
  }

  lemma {:induction false} EveryRunIsAccountable(steps: seq<Step>, pid: Pid)
    ensures Accountable(steps, pid)
    decreases |steps|
  {
    hide WasRead, WasReadAndChecked, WasServedCached, Next;
    if steps != [] {
      var before, last := steps[..|steps| - 1], steps[|steps| - 1];
      assert steps == before + [last];
      EveryRunIsAccountable(before, pid);
      RunSnoc(INIT, before, last);
      HistoryGrows(before, last, pid);
      HappensNow(before, last, pid);
      if pid in Run(INIT, steps).loaders {
        PhaseFrom(Run(INIT, before), last, pid);
      }
    }
  }

  /**
   In every run, a call that is accepted has judged a cached value before its lease ended, or has read an
   unrevoked row from the database and looked at it before the row expired.
   */
  lemma AcceptedIsChecked(steps: seq<Step>, pid: Pid)
    requires pid in Run(INIT, steps).loaders && Run(INIT, steps).loaders[pid].phase.Accepted?
    ensures WasServedCached(steps, pid) || exists row :: WasReadAndChecked(steps, pid, row)
  {
    EveryRunIsAccountable(steps, pid);
  }

  /** Every cached value was made from an unrevoked row that had not expired when the lease of it was taken. */
  ghost predicate Sound(value: Value) {
    value.Cached? ==> !value.row.revoked && value.until - 5_000 < value.row.expires
  }

  ghost predicate CacheSound(s: State) {
    && (forall id | id in s.redis :: Sound(s.redis[id].value))
    && (forall c | c in s.inFlight && c.SetNx? :: Sound(Cached(c.row, c.until)))
    && (forall pid | pid in s.loaders :: LoaderSound(s, s.loaders[pid].phase))
  }

  ghost predicate LoaderSound(s: State, phase: Phase) {
    match phase
    case Fetched(Some(value)) => Sound(value)
    case Leased(until) => until - 5_000 <= s.now
    case Loaded(until, _) => until - 5_000 <= s.now
    case Writing(until, row) => Sound(Cached(row, until))
    case _ => true
  }

  lemma LoadKeepsCacheSound(s: State, step: Step)
    requires CacheSound(s)
    ensures CacheSound(NextLoad(s, step))
  {
    hide Live;
    SoundReplies(s);
  }

  lemma SoundReplies(s: State)
    requires CacheSound(s)
    ensures forall id :: Live(s, id).Some? ==> Sound(Live(s, id).value)
  {
  }

  lemma ExecuteKeepsCacheSound(s: State, c: Command)
    requires CacheSound(s) && (c.SetNx? ==> Sound(Cached(c.row, c.until)))
    ensures CacheSound(ExecuteCommand(s, c))
  {
    hide Live;
  }

  lemma RetireKeepsCacheSound(s: State, step: Step)
    requires CacheSound(s)
    ensures CacheSound(NextRetire(s, step))
  {
    if step.WriteRevoked? && step.pid in s.retirements && s.retirements[step.pid].todo != [] {
      ExecuteKeepsCacheSound(s, SetRevoked(s.retirements[step.pid].todo[0]));
    }
    hide ExecuteCommand;
  }

  lemma StepKeepsCacheSound(s: State, step: Step)
    requires CacheSound(s)
    ensures CacheSound(Next(s, step))
  {
    hide NextLoad, NextRetire, ExecuteCommand;
    LoadKeepsCacheSound(s, step);
    RetireKeepsCacheSound(s, step);
    if step.Execute? && step.command in s.inFlight {
      ExecuteKeepsCacheSound(s, step.command);
    }
  }

  lemma {:induction false} RunKeepsCacheSound(s: State, steps: seq<Step>)
    requires CacheSound(s)
    ensures CacheSound(Run(s, steps))
    decreases |steps|
  {
    hide CacheSound, Next;
    if steps != [] {
      StepKeepsCacheSound(s, steps[0]);
      RunKeepsCacheSound(Next(s, steps[0]), steps[1..]);
    }
  }

  /** In every run a call served from the cache is served less than five seconds after the row it goes by expired. */
  lemma CachedIsNotLongExpired(steps: seq<Step>, step: Step, pid: Pid)
    requires ServesCached(Run(INIT, steps), step, pid)
    ensures var s := Run(INIT, steps);
            var value := s.loaders[pid].phase.reply.value;
            !value.row.revoked && s.now < value.row.expires + 5_000
  {
    RunKeepsCacheSound(INIT, steps);
    var s := Run(INIT, steps);
    assert LoaderSound(s, s.loaders[pid].phase);
  }

  // ---------------------------------------------------------------------------------------------
  // A call on its own
  // ---------------------------------------------------------------------------------------------

  /** All steps of one load; those that a path does not need change nothing. */
  function LoadAlone(pid: Pid, id: Id, redisUp: bool, dbUp: bool): seq<Step> {
    [BeginLoad(pid, id), Get(pid, redisUp), Judge(pid)] + FromRow(pid, dbUp)
  }

  lemma RunFirst(s: State, step: Step, rest: seq<Step>)
    ensures Run(s, [step] + rest) == Run(Next(s, step), rest)
  {
    assert ([step] + rest)[1..] == rest;
  }

  predicate CacheHolds(s: State, id: Id, redisUp: bool) {
    redisUp && match Live(s, id) case Some(Cached(_, until)) => s.now < until case _ => false
  }

  /**
   An undisturbed load is accepted exactly when Redis answers a cached value whose lease has not ended, or
   does not answer "revoked" and the database has the row, unrevoked and not expired; and what it read from the
   database it then sends to the cache, under a lease of five seconds.
   */
  lemma LoadAloneIff(s: State, pid: Pid, id: Id, redisUp: bool, dbUp: bool)
    requires pid !in s.loaders
    ensures var t := Run(s, LoadAlone(pid, id, redisUp, dbUp));
            var hit := CacheHolds(s, id, redisUp);
            var refused := redisUp && Live(s, id) == Some(Revoked);
            var good := dbUp && id in s.rows && !s.rows[id].revoked && s.now < s.rows[id].expires;
            && pid in t.loaders
            && t.loaders[pid].phase == (if hit || (!refused && good) then Accepted else Rejected)
            && t.inFlight == s.inFlight +
                 (if !hit && !refused && good then {SetNx(id, s.rows[id], s.now + 5_000, 5_000)} else {})
            && t.rows == s.rows && t.redis == s.redis && t.now == s.now
  {
    hide Run, Live, Next, SetLoader;
    var begun := s.(loaders := s.loaders[pid := Loader(id, Asking)]);
    var phase := if CacheHolds(s, id, redisUp) then Accepted
      else if redisUp && Live(s, id) == Some(Revoked) then Rejected else Missed;
    RunToVerdict(s, pid, id, redisUp, dbUp, phase);
    AsBegun(begun, pid, phase);
    if phase.Missed? {
      FromDatabase(SetLoader(begun, pid, Missed), pid, dbUp);
      AsBegun(SetLoader(begun, pid, Missed), pid, Accepted);
      AsBegun(SetLoader(begun, pid, Missed), pid, Rejected);
    } else {
      Decided(SetLoader(begun, pid, phase), pid, dbUp);
    }
  }

  lemma AsBegun(s: State, pid: Pid, phase: Phase)
    requires pid in s.loaders
    ensures var t := SetLoader(s, pid, phase);
            && t == s.(loaders := t.loaders)
            && pid in t.loaders && t.loaders[pid] == Loader(s.loaders[pid].id, phase)
    ensures forall phase' :: SetLoader(SetLoader(s, pid, phase), pid, phase') == SetLoader(s, pid, phase')
  {
  }

  /** The cache decides, or leaves the decision to the database. */
  lemma RunToVerdict(s: State, pid: Pid, id: Id, redisUp: bool, dbUp: bool, phase: Phase)
    requires pid !in s.loaders
    requires phase == if CacheHolds(s, id, redisUp) then Accepted
             else if redisUp && Live(s, id) == Some(Revoked) then Rejected else Missed
    ensures var begun := s.(loaders := s.loaders[pid := Loader(id, Asking)]);
            Run(s, LoadAlone(pid, id, redisUp, dbUp)) == Run(SetLoader(begun, pid, phase), FromRow(pid, dbUp))
  {
    hide Run, Live, Next, SetLoader;
    var begun := s.(loaders := s.loaders[pid := Loader(id, Asking)]);
    var rest := [Judge(pid)] + FromRow(pid, dbUp);
    assert LoadAlone(pid, id, redisUp, dbUp) == [BeginLoad(pid, id)] + ([Get(pid, redisUp)] + rest);
    RunFirst(s, BeginLoad(pid, id), [Get(pid, redisUp)] + rest);
    Begins(s, pid, id);
    RunFirst(begun, Get(pid, redisUp), rest);
    Gets(begun, pid, redisUp);
    SameKey(s, begun, id);
    var reply := if redisUp then Fetched(Live(s, id)) else Missed;
    var got := SetLoader(begun, pid, reply);
    AsBegun(begun, pid, reply);
    RunFirst(got, Judge(pid), FromRow(pid, dbUp));
    Judges(got, pid);
  }

  lemma Begins(s: State, pid: Pid, id: Id)
    requires pid !in s.loaders
    ensures Next(s, BeginLoad(pid, id)) == s.(loaders := s.loaders[pid := Loader(id, Asking)])
  {
  }

  lemma Gets(s: State, pid: Pid, redisUp: bool)
    requires pid in s.loaders && s.loaders[pid].phase.Asking?
    ensures Next(s, Get(pid, redisUp)) ==
            SetLoader(s, pid, if redisUp then Fetched(Live(s, s.loaders[pid].id)) else Missed)
  {
  }

  /** Judging a reply; a call that already knows it has missed does not judge. */
  lemma Judges(s: State, pid: Pid)
    requires pid in s.loaders && (s.loaders[pid].phase.Fetched? || s.loaders[pid].phase.Missed?)
    ensures var phase := match s.loaders[pid].phase
                         case Fetched(Some(Revoked)) => Rejected
                         case Fetched(Some(Cached(_, until))) => if s.now < until then Accepted else Missed
                         case _ => Missed;
            Next(s, Judge(pid)) == SetLoader(s, pid, phase)
  {
    Same(s, pid);
  }

  lemma Same(s: State, pid: Pid)
    requires pid in s.loaders
    ensures SetLoader(s, pid, s.loaders[pid].phase) == s
  {
    assert s.loaders[pid := s.loaders[pid]] == s.loaders;
  }

  lemma Leases(s: State, pid: Pid)
    requires pid in s.loaders && s.loaders[pid].phase.Missed?
    ensures Next(s, TakeLease(pid)) == SetLoader(s, pid, Leased(s.now + 5_000))
  {
  }

  lemma Reads(s: State, pid: Pid, dbUp: bool)
    requires pid in s.loaders && s.loaders[pid].phase.Leased?
    ensures var Loader(id, phase) := s.loaders[pid];
            Next(s, ReadRow(pid, dbUp)) ==
            SetLoader(s, pid, if dbUp && id in s.rows then Loaded(phase.until, s.rows[id]) else Rejected)
  {
  }

  lemma Checks(s: State, pid: Pid)
    requires pid in s.loaders && (s.loaders[pid].phase.Loaded? || s.loaders[pid].phase.Rejected?)
    ensures var phase := match s.loaders[pid].phase
                         case Loaded(until, Row(false, expires)) =>
                           if s.now < expires then Writing(until, Row(false, expires)) else Rejected
                         case _ => Rejected;
            Next(s, CheckRow(pid)) == SetLoader(s, pid, phase)
  {
    Same(s, pid);
  }

  lemma Writes(s: State, pid: Pid)
    requires pid in s.loaders
    requires s.loaders[pid].phase.Rejected? ||
             (s.loaders[pid].phase.Writing? && s.now < s.loaders[pid].phase.until)
    ensures var Loader(id, phase) := s.loaders[pid];
            var sent := if phase.Rejected? then {} else {SetNx(id, phase.row, phase.until, phase.until - s.now)};
            Next(s, WriteCache(pid)) ==
            SetLoader(s, pid, if phase.Rejected? then Rejected else Accepted).(inFlight := s.inFlight + sent)
  {
    if s.loaders[pid].phase.Rejected? {
      Same(s, pid);
      assert s.inFlight + {} == s.inFlight;
    }
  }

  lemma SameKey(s: State, t: State, id: Id)
    requires t.redis == s.redis && t.now == s.now
    ensures Live(t, id) == Live(s, id)
  {
  }

  function FromRow(pid: Pid, dbUp: bool): seq<Step> {
    [TakeLease(pid), ReadRow(pid, dbUp), CheckRow(pid), WriteCache(pid)]
  }

  lemma Decided(s: State, pid: Pid, dbUp: bool)
    requires pid in s.loaders && (s.loaders[pid].phase.Accepted? || s.loaders[pid].phase.Rejected?)
    ensures Run(s, FromRow(pid, dbUp)) == s
  {
    RunFour(s, TakeLease(pid), ReadRow(pid, dbUp), CheckRow(pid), WriteCache(pid));
  }

  lemma RunFour(s: State, a: Step, b: Step, c: Step, d: Step)
    ensures Run(s, [a, b, c, d]) == Next(Next(Next(Next(s, a), b), c), d)
  {
    hide Next;
    RunFirst(s, a, [b, c, d]);
    RunFirst(Next(s, a), b, [c, d]);
    RunFirst(Next(Next(s, a), b), c, [d]);
    RunFirst(Next(Next(Next(s, a), b), c), d, []);
  }

  lemma FromDatabase(s: State, pid: Pid, dbUp: bool)
    requires pid in s.loaders && s.loaders[pid].phase == Missed
    ensures var t := Run(s, FromRow(pid, dbUp));
            var id := s.loaders[pid].id;
            var good := dbUp && id in s.rows && !s.rows[id].revoked && s.now < s.rows[id].expires;
            t == SetLoader(s, pid, if good then Accepted else Rejected).(
                   inFlight := s.inFlight + if good then {SetNx(id, s.rows[id], s.now + 5_000, 5_000)} else {})
  {
    hide Run, Next, SetLoader;
    var id := s.loaders[pid].id;
    var leased := SetLoader(s, pid, Leased(s.now + 5_000));
    AsBegun(s, pid, Leased(s.now + 5_000));
    var answer := if dbUp && id in s.rows then Loaded(s.now + 5_000, s.rows[id]) else Rejected;
    AsBegun(s, pid, answer);
    var good := dbUp && id in s.rows && !s.rows[id].revoked && s.now < s.rows[id].expires;
    var verdict := if good then Writing(s.now + 5_000, s.rows[id]) else Rejected;
    AsBegun(s, pid, verdict);
    RunFour(s, TakeLease(pid), ReadRow(pid, dbUp), CheckRow(pid), WriteCache(pid));
    Leases(s, pid);
    Reads(leased, pid, dbUp);
    Checks(SetLoader(s, pid, answer), pid);
    Writes(SetLoader(s, pid, verdict), pid);
  }

  /** What was sent to an empty key is what every load finds there until the lease ends. */
  lemma FilledKeyAnswers(s: State, id: Id, row: Row, until: int, ttl: int, elapsed: nat)
    requires SetNx(id, row, until, ttl) in s.inFlight && Live(s, id).None? && elapsed < ttl
    ensures Live(Next(Next(s, Execute(SetNx(id, row, until, ttl))), Tick(elapsed)), id) == Some(Cached(row, until))
  {
  }

  /** A refresh renews a session that is in use and never brings a revoked one back. */
  lemma RefreshIff(s: State, id: Id, expires: int)
    requires id in s.rows
    ensures var t := Next(s, RefreshSession(id, expires));
            id in t.rows && t.rows[id] == if s.rows[id].revoked then s.rows[id] else Row(false, expires)
  {
  }

  /**
   An undisturbed retirement of a revoked session returns at once when its write is acknowledged, and
   otherwise after exactly five seconds; an acknowledged mark answers for seven days and fifteen minutes.
   */
  lemma RetireAloneIff(s: State, pid: Pid, id: Id, acknowledged: bool, elapsed: nat)
    requires pid !in s.retirements && id in s.rows && s.rows[id].revoked && id !in s.retired
    ensures var steps := [BeginRetire(pid, [id]), WriteRevoked(pid, acknowledged), Tick(elapsed), FinishRetire(pid)];
            var t := Run(s, steps);
            && (id in t.retired <==> acknowledged || elapsed >= 5_000)
            && (acknowledged && elapsed < 605_700_000 ==> Live(t, id) == Some(Revoked))
            && (!acknowledged ==> SetRevoked(id) in t.inFlight)
  {
    hide Run, Next;
    RunFour(s, BeginRetire(pid, [id]), WriteRevoked(pid, acknowledged), Tick(elapsed), FinishRetire(pid));
    var begun := s.(retirements := s.retirements[pid := Retirement(s.now + 5_000, [id], [], false)]);
    BeginsRetiring(s, pid, id);
    WritesRevoked(begun, pid, id, acknowledged);
    var written := Next(begun, WriteRevoked(pid, acknowledged));
    Returns(written, pid, elapsed);
  }

  lemma BeginsRetiring(s: State, pid: Pid, id: Id)
    requires pid !in s.retirements && id in s.rows && s.rows[id].revoked
    ensures Next(s, BeginRetire(pid, [id])) ==
            s.(retirements := s.retirements[pid := Retirement(s.now + 5_000, [id], [], false)])
  {
  }

  lemma WritesRevoked(s: State, pid: Pid, id: Id, acknowledged: bool)
    requires pid in s.retirements && s.retirements[pid] == Retirement(s.retirements[pid].deadline, [id], [], false)
    ensures var t := Next(s, WriteRevoked(pid, acknowledged));
            && pid in t.retirements
            && t.retirements[pid] == Retirement(s.retirements[pid].deadline, [], [id], !acknowledged)
            && t.now == s.now && t.retired == s.retired
            && (acknowledged ==> id in t.redis && t.redis[id] == Entry(Revoked, s.now + 605_700_000))
            && (!acknowledged ==> SetRevoked(id) in t.inFlight)
  {
    assert [id][1..] == [] && [] + [id] == [id];
  }

  lemma Returns(s: State, pid: Pid, elapsed: nat)
    requires pid in s.retirements && s.retirements[pid].todo == []
    ensures var t := Next(Next(s, Tick(elapsed)), FinishRetire(pid));
            var r := s.retirements[pid];
            && t == s.(now := s.now + elapsed, retired := t.retired)
            && t.retired == s.retired +
                 (if !r.failed || r.deadline <= s.now + elapsed then set id | id in r.done else {})
  {
  }

  // ---------------------------------------------------------------------------------------------
  // The wait matters
  // ---------------------------------------------------------------------------------------------

  ghost predicate Reachable(s: State) {
    exists steps :: Run(INIT, steps) == s
  }

  lemma {:induction false} RunSnoc(s: State, steps: seq<Step>, step: Step)
    ensures Run(s, steps + [step]) == Next(Run(s, steps), step)
    decreases |steps|
  {
    if steps == [] {
      assert Run(Next(s, step), []) == Next(s, step);
    } else {
      assert (steps + [step])[1..] == steps[1..] + [step];
      RunSnoc(Next(s, steps[0]), steps[1..], step);
    }
  }

  lemma ReachNext(s: State, step: Step, t: State)
    requires Reachable(s) && t == Next(s, step)
    ensures Reachable(t)
  {
    var steps :| Run(INIT, steps) == s;
    RunSnoc(INIT, steps, step);
  }

  const ROW := Row(false, 1_000_000)
  const SENT := SetNx(7, ROW, LEASE, LEASE)

  function Loading(phase: Phase): State {
    INIT.(rows := map[7 := ROW], loaders := map[0 := Loader(7, phase)])
  }

  const CACHED := Loading(Accepted).(inFlight := {SENT}, redis := map[7 := Entry(Cached(ROW, LEASE), LEASE)])
  const COMMITTED := CACHED.(rows := map[7 := Row(true, 1_000_000)], revokedAt := map[7 := 0])
  const WAITING := COMMITTED.(retirements := map[0 := Retirement(LEASE, [], [7], true)],
                              inFlight := {SENT, SetRevoked(7)})

  function Reloading(phase: Phase): State {
    WAITING.(loaders := map[0 := Loader(7, Accepted), 1 := Loader(7, phase)])
  }

  lemma LoadBegins()
    ensures Reachable(Loading(Asking))
  {
    assert Run(INIT, []) == INIT;
    ReachNext(INIT, CreateSession(7, 1_000_000), INIT.(rows := map[7 := ROW]));
    ReachNext(INIT.(rows := map[7 := ROW]), BeginLoad(0, 7), Loading(Asking));
  }

  lemma LoadMisses()
    ensures Reachable(Loading(Missed))
  {
    LoadBegins();
    ReachNext(Loading(Asking), Get(0, true), Loading(Fetched(None)));
    ReachNext(Loading(Fetched(None)), Judge(0), Loading(Missed));
  }

  lemma LeaseIsTaken()
    ensures Reachable(Loading(Leased(LEASE)))
  {
    LoadMisses();
    ReachNext(Loading(Missed), TakeLease(0), Loading(Leased(LEASE)));
  }

  lemma RowIsChecked()
    ensures Reachable(Loading(Writing(LEASE, ROW)))
  {
    LeaseIsTaken();
    ReachNext(Loading(Leased(LEASE)), ReadRow(0, true), Loading(Loaded(LEASE, ROW)));
    ReachNext(Loading(Loaded(LEASE, ROW)), CheckRow(0), Loading(Writing(LEASE, ROW)));
  }

  lemma SessionIsCached()
    ensures Reachable(CACHED)
  {
    RowIsChecked();
    ReachNext(Loading(Writing(LEASE, ROW)), WriteCache(0), Loading(Accepted).(inFlight := {SENT}));
    ReachNext(Loading(Accepted).(inFlight := {SENT}), Execute(SENT), CACHED);
  }

  const BEGUN := COMMITTED.(retirements := map[0 := Retirement(LEASE, [7], [], false)])

  lemma RetirementBegins()
    ensures Reachable(BEGUN)
  {
    SessionIsCached();
    ReachNext(CACHED, CommitRevocation({7}), COMMITTED);
    ReachNext(COMMITTED, BeginRetire(0, [7]), BEGUN);
  }

  lemma RetirementWaits()
    ensures Reachable(WAITING)
  {
    RetirementBegins();
    assert BEGUN.retirements[0].todo[1..] == [] && BEGUN.retirements[0].done + [7] == [7];
    ReachNext(BEGUN, WriteRevoked(0, false), WAITING);
  }

  lemma SecondLoadFetches()
    ensures Reachable(Reloading(Fetched(Some(Cached(ROW, LEASE)))))
  {
    RetirementWaits();
    ReachNext(WAITING, BeginLoad(1, 7), Reloading(Asking));
    ReachNext(Reloading(Asking), Get(1, true), Reloading(Fetched(Some(Cached(ROW, LEASE)))));
  }

  /** The loop over the ids is over but the call has not returned; another load has been accepted. */
  ghost predicate AcceptsRevoked(s: State, id: Id, retirement: Pid, load: Pid) {
    && IsRevoked(s, id) && id !in s.retired
    && retirement in s.retirements && s.retirements[retirement].todo == [] && id in s.retirements[retirement].done
    && load in s.loaders && s.loaders[load] == Loader(id, Accepted)
  }

  /**
   While the lease is being waited out a revoked session is still accepted, although its revocation
   has committed and every key has been written: returning at once would break `NoLateAcceptance`.
   */
  lemma AcceptedDuringTheWait()
    ensures exists s: State :: Reachable(s) && AcceptsRevoked(s, 7, 0, 1)
  {
    SecondLoadFetches();
    ReachNext(Reloading(Fetched(Some(Cached(ROW, LEASE)))), Judge(1), Reloading(Accepted));
    assert AcceptsRevoked(Reloading(Accepted), 7, 0, 1);
  }
}
