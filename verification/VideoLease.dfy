/**
 The Redis copy of one video and the token lease that guards it (backend/cache.go).

 Any number of `detail` loads by any number of processes run over the database row of a video and its
 two Redis keys, the value and the lock. A video's keys are its own, so one video is modelled. Each
 atomic action is a `Step`; a step that is not enabled changes nothing but the step counter. A Redis
 command whose reply is lost stays "in flight": it takes effect at most once, at any later moment, or
 never. Expiry of either key may happen at any moment, and so may an eviction by any process.
 */
module VideoLease {
  import opened Options

  type Pid = nat

  /** What is stored: the version of the row that was read, and when it was read. */
  datatype Copy = Copy(version: nat, readAt: nat)

  /** The scripts and SET NX; the token of a load is its `pid`, fresh for every load. */
  datatype Command = Lock(pid: Pid) | Publish(pid: Pid, copy: Copy) | Release(pid: Pid)

  /** The program counter of one load, in the order of the code; `answer` is None for an error and a stale fallback. */
  datatype Phase =
    | Asking
    | Missed
    | Waiting
    | Locked
    | Ready(locked: bool)
    | Loaded(locked: bool, copy: Copy)
    | Releasing(answer: Option<Copy>)
    | Done(answer: Option<Copy>)

  datatype State = State(
    clock: nat,           // steps so far
    row: nat,             // version of the database row
    value: Option<Copy>,  // the Redis value key
    lock: Option<Pid>,    // the Redis lock key
    evictedAt: nat,       // when the last executed eviction happened
    evictedRow: nat,      // and the version of the row at that moment
    spent: set<Pid>,      // tokens whose SET NX has been executed
    inFlight: set<Command>,
    loads: map<Pid, Phase>)

  datatype Step =
    | CommitRow
    | Evict
    | ExpireValue
    | ExpireLock
    | Execute(command: Command)
    | Begin(pid: Pid)
    | ReadCache(pid: Pid, redisUp: bool)
    | TryLock(pid: Pid, redisUp: bool)
    | Poll(pid: Pid, redisUp: bool)
    | GiveUp(pid: Pid)
    | ReadAgain(pid: Pid, redisUp: bool)
    | ReadRow(pid: Pid, dbUp: bool)
    | PublishCopy(pid: Pid, redisUp: bool)
    | ReleaseLock(pid: Pid)
    | Crash(pid: Pid)

  const INIT := State(1, 0, None, None, 0, 0, {}, {}, map[])

  /** SET NX, `publishVideoCache` and `releaseVideoLock`, each atomic. */
  function ExecuteCommand(s: State, c: Command): State {
    match c
    case Lock(pid) =>
      s.(lock := if s.lock.None? then Some(pid) else s.lock, spent := s.spent + {pid})
    case Publish(pid, copy) =>
      if s.lock != Some(pid) then s else s.(value := Some(copy), lock := None)
    case Release(pid) =>
      if s.lock == Some(pid) then s.(lock := None) else s
  }

  function Go(s: State, pid: Pid, phase: Phase): State {
    s.(loads := s.loads[pid := phase])
  }

  predicate In(s: State, pid: Pid, phase: Phase) {
    pid in s.loads && s.loads[pid] == phase
  }

  /** Evictions by `evictVideoCache`, commits and expiries: what the rest of the world may do. */
  function World(s: State, step: Step): State {
    match step
    case CommitRow => s.(row := s.row + 1)
    case Evict => s.(value := None, lock := None, evictedAt := s.clock, evictedRow := s.row)
    case ExpireValue => s.(value := None)
    case ExpireLock => s.(lock := None)
    case Execute(c) => if c in s.inFlight then ExecuteCommand(s.(inFlight := s.inFlight - {c}), c) else s
    case _ => s
  }

  /** The loader function inside `detail`. */
  function Load(s: State, step: Step): State {
    match step
    case Begin(pid) =>
      if pid in s.loads then s else Go(s, pid, Asking)
    case ReadCache(pid, redisUp) =>
      if In(s, pid, Asking) then
        Go(s, pid, if !redisUp then Ready(false) else if s.value.Some? then Done(s.value) else Missed)
      else s
    case TryLock(pid, redisUp) =>
      if !In(s, pid, Missed) then s
      else if !redisUp then Go(s, pid, Ready(false)).(inFlight := s.inFlight + {Lock(pid)})
      else Go(ExecuteCommand(s, Lock(pid)), pid, if s.lock.None? then Locked else Waiting)
    case Poll(pid, redisUp) =>
      if In(s, pid, Waiting) then
        Go(s, pid, if !redisUp then Ready(false) else if s.value.Some? then Done(s.value) else Waiting)
      else s
    case GiveUp(pid) =>
      if In(s, pid, Waiting) then Go(s, pid, Done(None)) else s
    case ReadAgain(pid, redisUp) =>
      if In(s, pid, Locked) then
        Go(s, pid, if redisUp && s.value.Some? then Releasing(s.value) else Ready(true))
      else s
    case ReadRow(pid, dbUp) =>
      if pid in s.loads && s.loads[pid].Ready? then
        var locked := s.loads[pid].locked;
        Go(s, pid, if dbUp then Loaded(locked, Copy(s.row, s.clock))
                   else if locked then Releasing(None) else Done(None))
      else s
    case PublishCopy(pid, redisUp) =>
      if pid in s.loads && s.loads[pid].Loaded? then
        var Loaded(locked, copy) := s.loads[pid];
        if !locked then Go(s, pid, Done(Some(copy)))
        else if redisUp then Go(ExecuteCommand(s, Publish(pid, copy)), pid, Releasing(Some(copy)))
        else Go(s, pid, Releasing(Some(copy))).(inFlight := s.inFlight + {Publish(pid, copy)})
      else s
    case ReleaseLock(pid) =>
      if pid in s.loads && s.loads[pid].Releasing? then
        Go(s, pid, Done(s.loads[pid].answer)).(inFlight := s.inFlight + {Release(pid)})
      else s
    case Crash(pid) =>
      if pid in s.loads then Go(s, pid, Done(None)) else s
    case _ => s
  }

  function Next(s: State, step: Step): State {
    Load(World(s, step), step).(clock := s.clock + 1)
  }

  function Run(s: State, steps: seq<Step>): State
    decreases |steps|
  {
    if steps == [] then s else Run(Next(s, steps[0]), steps[1..])
  }

  // ---------------------------------------------------------------------------------------------
  // The invariant
  // ---------------------------------------------------------------------------------------------

  /** A copy read from the database after the last executed eviction. */
  predicate Fresh(s: State, copy: Copy) {
    s.evictedAt < copy.readAt < s.clock && s.evictedRow <= copy.version <= s.row
  }

  predicate HoldsLease(phase: Phase) {
    phase.Locked? || phase == Ready(true) || (phase.Loaded? && phase.locked) || phase.Releasing?
  }

  ghost predicate LoadOk(s: State, pid: Pid) {
    pid in s.loads ==>
      && (HoldsLease(s.loads[pid]) ==> pid in s.spent)
      && (s.loads[pid].Loaded? && s.lock == Some(pid) && s.loads[pid].locked ==> Fresh(s, s.loads[pid].copy))
      && (s.loads[pid].Asking? || s.loads[pid].Missed? ==> pid !in s.spent && Lock(pid) !in s.inFlight)
  }

  ghost predicate CommandOk(s: State, c: Command) {
    match c
    case Lock(pid) => pid in s.loads && pid !in s.spent
    case Publish(pid, copy) => pid in s.spent && (s.lock == Some(pid) ==> Fresh(s, copy))
    case Release(pid) => true
  }

  ghost predicate Inv(s: State) {
    && s.evictedAt < s.clock && s.evictedRow <= s.row
    && (s.value.Some? ==> Fresh(s, s.value.value))
    && (s.lock.Some? ==> s.lock.value in s.spent)
    && s.spent <= s.loads.Keys
    && (forall pid :: LoadOk(s, pid))
    && (forall c | c in s.inFlight :: CommandOk(s, c))
  }

  lemma ExecuteKeeps(s: State, c: Command)
    requires Inv(s) && c in s.inFlight
    ensures Inv(World(s, Execute(c)).(clock := s.clock + 1))
  {
    var t := World(s, Execute(c)).(clock := s.clock + 1);
    assert CommandOk(s, c);
    forall pid ensures LoadOk(t, pid) { assert LoadOk(s, pid); }
    forall d | d in t.inFlight ensures CommandOk(t, d) { assert CommandOk(s, d); }
  }

  lemma WorldKeeps(s: State, step: Step)
    requires Inv(s) && !step.Execute?
    ensures Inv(World(s, step).(clock := s.clock + 1))
  {
    var t := World(s, step).(clock := s.clock + 1);
    forall pid ensures LoadOk(t, pid) { assert LoadOk(s, pid); }
    forall c | c in t.inFlight ensures CommandOk(t, c) { assert CommandOk(s, c); }
  }

  lemma IdleKeeps(s: State)
    requires Inv(s)
    ensures Inv(s.(clock := s.clock + 1))
  {
    var t := s.(clock := s.clock + 1);
    forall pid ensures LoadOk(t, pid) { assert LoadOk(s, pid); }
    forall c | c in t.inFlight ensures CommandOk(t, c) { assert CommandOk(s, c); }
  }

  /** A step that changes only the phase of one load, and perhaps sends one command for it. */
  lemma MoveKeeps(s: State, t: State, pid: Pid)
    requires Inv(s)
    requires pid in t.loads && LoadOk(t, pid)
    requires t == s.(clock := s.clock + 1, loads := s.loads[pid := t.loads[pid]], inFlight := t.inFlight)
    requires forall c | c in t.inFlight :: c in s.inFlight || (c.pid == pid && CommandOk(t, c))
    ensures Inv(t)
  {
    forall p ensures LoadOk(t, p) { assert LoadOk(s, p); }
    forall c | c in t.inFlight ensures CommandOk(t, c) { assert c in s.inFlight ==> CommandOk(s, c); }
  }

  lemma SimpleMoveKeeps(s: State, step: Step)
    requires Inv(s) && !step.TryLock? && !step.PublishCopy? && !step.Execute?
    requires World(s, step) == s
    ensures Inv(Load(s, step).(clock := s.clock + 1))
  {
    var t := Load(s, step).(clock := s.clock + 1);
    if Load(s, step) == s {
      IdleKeeps(s);
    } else {
      assert LoadOk(s, step.pid);
      assert forall c | c in s.inFlight :: CommandOk(s, c);
      MoveKeeps(s, t, step.pid);
    }
  }

  lemma TryLockKeeps(s: State, pid: Pid, redisUp: bool)
    requires Inv(s) && In(s, pid, Missed)
    ensures Inv(Load(s, TryLock(pid, redisUp)).(clock := s.clock + 1))
  {
    var t := Load(s, TryLock(pid, redisUp)).(clock := s.clock + 1);
    assert LoadOk(s, pid);
    if redisUp {
      forall p ensures LoadOk(t, p) { assert LoadOk(s, p); }
      forall c | c in t.inFlight ensures CommandOk(t, c) { assert CommandOk(s, c); }
    } else {
      MoveKeeps(s, t, pid);
    }
  }

  lemma PublishKeeps(s: State, pid: Pid, redisUp: bool)
    requires Inv(s) && pid in s.loads && s.loads[pid].Loaded?
    ensures Inv(Load(s, PublishCopy(pid, redisUp)).(clock := s.clock + 1))
  {
    var t := Load(s, PublishCopy(pid, redisUp)).(clock := s.clock + 1);
    assert LoadOk(s, pid);
    if redisUp && s.loads[pid].locked && s.lock == Some(pid) {
      forall p ensures LoadOk(t, p) { assert LoadOk(s, p); }
      forall c | c in t.inFlight ensures CommandOk(t, c) { assert CommandOk(s, c); }
    } else {
      MoveKeeps(s, t, pid);
    }
  }

  lemma StepKeeps(s: State, step: Step)
    requires Inv(s)
    ensures Inv(Next(s, step))
  {
    if step.TryLock? {
      if In(s, step.pid, Missed) { TryLockKeeps(s, step.pid, step.redisUp); } else { IdleKeeps(s); }
    } else if step.PublishCopy? {
      if step.pid in s.loads && s.loads[step.pid].Loaded? {
        PublishKeeps(s, step.pid, step.redisUp);
      } else {
        IdleKeeps(s);
      }
    } else if step.Execute? {
      if step.command in s.inFlight { ExecuteKeeps(s, step.command); } else { IdleKeeps(s); }
    } else if World(s, step) == s {
      SimpleMoveKeeps(s, step);
    } else {
      WorldKeeps(s, step);
    }
  }

  lemma {:induction false} RunKeeps(s: State, steps: seq<Step>)
    requires Inv(s)
    ensures Inv(Run(s, steps))
    decreases |steps|
  {
    if steps != [] {
      StepKeeps(s, steps[0]);
      RunKeeps(Next(s, steps[0]), steps[1..]);
    }
  }

  // ---------------------------------------------------------------------------------------------
  // Main results
  // ---------------------------------------------------------------------------------------------

  /**
   In every reachable state the value under the key was read from the database after the last executed
   eviction of that key. If nothing was committed since that eviction, it is the current row.
   */
  lemma ValueReadAfterLastEviction(steps: seq<Step>)
    requires Run(INIT, steps).value.Some?
    ensures var s := Run(INIT, steps);
      && s.evictedAt < s.value.value.readAt < s.clock
      && s.evictedRow <= s.value.value.version <= s.row
      && (s.row == s.evictedRow ==> s.value.value.version == s.row)
  {
    RunKeeps(INIT, steps);
  }

  lemma LostLeaseStep(s: State, step: Step, pid: Pid)
    requires Inv(s) && pid in s.spent && s.lock != Some(pid)
    ensures pid in Next(s, step).spent && Next(s, step).lock != Some(pid)
    ensures step == PublishCopy(pid, true) ==> Next(s, step).value == s.value
    ensures step.Execute? && step.command.Publish? && step.command.pid == pid ==> Next(s, step).value == s.value
  {
    assert LoadOk(s, pid);
    if step.Execute? && step.command in s.inFlight {
      assert CommandOk(s, step.command);
    }
  }

  /**
   A load whose lease was evicted, expired or taken over never holds it again, and none of its
   publications, late ones included, ever changes the value.
   */
  lemma {:induction false} LostLeaseNeverPublishes(s: State, steps: seq<Step>, pid: Pid, last: Step)
    requires Inv(s) && pid in s.spent && s.lock != Some(pid)
    requires last == PublishCopy(pid, true) || (last.Execute? && last.command.Publish? && last.command.pid == pid)
    ensures Run(s, steps).lock != Some(pid)
    ensures Next(Run(s, steps), last).value == Run(s, steps).value
    decreases |steps|
  {
    if steps == [] {
      LostLeaseStep(s, last, pid);
    } else {
      LostLeaseStep(s, steps[0], pid);
      StepKeeps(s, steps[0]);
      LostLeaseNeverPublishes(Next(s, steps[0]), steps[1..], pid, last);
    }
  }

  /** The same for reachable states: `pid` got the lock at some time, and later does not have it. */
  lemma LostLeaseForever(before: seq<Step>, after: seq<Step>, pid: Pid, last: Step)
    requires pid in Run(INIT, before).spent && Run(INIT, before).lock != Some(pid)
    requires last == PublishCopy(pid, true) || (last.Execute? && last.command.Publish? && last.command.pid == pid)
    ensures Run(Run(INIT, before), after).lock != Some(pid)
    ensures Next(Run(Run(INIT, before), after), last).value == Run(Run(INIT, before), after).value
  {
    RunKeeps(INIT, before);
    LostLeaseNeverPublishes(Run(INIT, before), after, pid, last);
  }

  // ---------------------------------------------------------------------------------------------
  // What loads answer
  // ---------------------------------------------------------------------------------------------

  /** What a load has read so far, from Redis or from the database. */
  function HasRead(phase: Phase): Option<Copy> {
    match phase
    case Loaded(_, copy) => Some(copy)
    case Releasing(answer) => answer
    case Done(answer) => answer
    case _ => None
  }

  ghost predicate ReadsAfter(s: State, pid: Pid, evictedAt: nat, evictedRow: nat) {
    && evictedAt <= s.evictedAt && evictedRow <= s.evictedRow
    && (pid in s.loads && HasRead(s.loads[pid]).Some? ==>
          HasRead(s.loads[pid]).value.readAt > evictedAt && HasRead(s.loads[pid]).value.version >= evictedRow)
  }

  lemma StepReadsAfter(s: State, step: Step, pid: Pid, evictedAt: nat, evictedRow: nat)
    requires Inv(s) && ReadsAfter(s, pid, evictedAt, evictedRow)
    ensures ReadsAfter(Next(s, step), pid, evictedAt, evictedRow)
  {
    hide ExecuteCommand;
    CommandsSpareLoads(s, step);
  }

  lemma CommandsSpareLoads(s: State, step: Step)
    ensures World(s, step).loads == s.loads
    ensures step.Execute? ==> World(s, step).evictedAt == s.evictedAt && World(s, step).evictedRow == s.evictedRow
    ensures forall c :: ExecuteCommand(s, c).loads == s.loads &&
                        ExecuteCommand(s, c).evictedAt == s.evictedAt && ExecuteCommand(s, c).evictedRow == s.evictedRow
  {
  }

  lemma {:induction false} RunReadsAfter(s: State, steps: seq<Step>, pid: Pid, evictedAt: nat, evictedRow: nat)
    requires Inv(s) && ReadsAfter(s, pid, evictedAt, evictedRow)
    ensures ReadsAfter(Run(s, steps), pid, evictedAt, evictedRow)
    decreases |steps|
  {
    hide Inv, ReadsAfter, Next;
    if steps != [] {
      StepKeeps(s, steps[0]);
      StepReadsAfter(s, steps[0], pid, evictedAt, evictedRow);
      RunReadsAfter(Next(s, steps[0]), steps[1..], pid, evictedAt, evictedRow);
    }
  }

  /** A load that begins after an eviction never answers a row that was read before it. */
  lemma AnswersAreReadAfterEviction(before: seq<Step>, after: seq<Step>, pid: Pid, copy: Copy)
    requires pid !in Run(INIT, before).loads
    requires In(Run(Run(INIT, before), after), pid, Done(Some(copy)))
    ensures copy.readAt > Run(INIT, before).evictedAt && copy.version >= Run(INIT, before).evictedRow
  {
    var s := Run(INIT, before);
    RunKeeps(INIT, before);
    RunReadsAfter(s, after, pid, s.evictedAt, s.evictedRow);
  }

  // ---------------------------------------------------------------------------------------------
  // Publishing fills the cache
  // ---------------------------------------------------------------------------------------------

  /** A publication by `pid` takes effect: in the call, or later when its reply was lost. */
  ghost predicate Publishes(s: State, step: Step, pid: Pid, copy: Copy) {
    || (step == PublishCopy(pid, true) && In(s, pid, Loaded(true, copy)))
    || (step == Execute(Publish(pid, copy)) && Publish(pid, copy) in s.inFlight)
  }

  /** Everything but an invalidation and the end of the value's life. */
  ghost predicate Spares(step: Step) {
    !step.Evict? && !step.ExpireValue?
  }

  ghost predicate IsPublication(step: Step) {
    step.PublishCopy? || (step.Execute? && step.command.Publish?)
  }

  /** From now on Redis answers every load. */
  ghost predicate Answers(s: State, copy: Copy) {
    && s.value == Some(copy)
    && (forall pid | In(s, pid, Asking) :: In(Next(s, ReadCache(pid, true)), pid, Done(Some(copy))))
    && (forall pid | In(s, pid, Waiting) :: In(Next(s, Poll(pid, true)), pid, Done(Some(copy))))
    && (forall pid | In(s, pid, Locked) :: In(Next(s, ReadAgain(pid, true)), pid, Releasing(Some(copy))))
  }

  lemma ValueAnswers(s: State)
    requires s.value.Some?
    ensures Answers(s, s.value.value)
  {
  }

  lemma SparingStepKeepsValue(s: State, step: Step)
    requires s.value.Some? && Spares(step)
    ensures Next(s, step).value.Some?
    ensures !IsPublication(step) ==> Next(s, step).value == s.value
  {
  }

  lemma {:induction false} SparingRunKeepsValue(s: State, steps: seq<Step>)
    requires s.value.Some? && forall i | 0 <= i < |steps| :: Spares(steps[i])
    ensures Run(s, steps).value.Some?
    ensures (forall i | 0 <= i < |steps| :: !IsPublication(steps[i])) ==> Run(s, steps).value == s.value
    decreases |steps|
  {
    hide Next;
    if steps != [] {
      SparingStepKeepsValue(s, steps[0]);
      SparingRunKeepsValue(Next(s, steps[0]), steps[1..]);
    }
  }

  /**
   A publication by the holder of the lock stores what it read and frees the lock. Until the value is
   evicted or expires every load is then answered from Redis, and with that copy until another is published.
   */
  lemma PublicationFills(s: State, last: Step, pid: Pid, copy: Copy, later: seq<Step>)
    requires s.lock == Some(pid) && Publishes(s, last, pid, copy)
    requires forall i | 0 <= i < |later| :: Spares(later[i])
    ensures Next(s, last).value == Some(copy) && Next(s, last).lock.None?
    ensures var t := Run(Next(s, last), later);
            && t.value.Some? && Answers(t, t.value.value)
            && ((forall i | 0 <= i < |later| :: !IsPublication(later[i])) ==> t.value.value == copy)
  {
    SparingRunKeepsValue(Next(s, last), later);
    ValueAnswers(Run(Next(s, last), later));
  }

  /**
   A load keeps the lock until it is evicted or expires, or its own publication or release takes effect: what
   other loads do, late commands included, never takes it away.
   */
  lemma LockIsLostIff(s: State, step: Step, pid: Pid)
    requires s.lock == Some(pid)
    ensures Next(s, step).lock != Some(pid) <==>
            || step.Evict? || step.ExpireLock?
            || (exists copy :: Publishes(s, step, pid, copy))
            || (step == Execute(Release(pid)) && Release(pid) in s.inFlight)
    ensures Next(s, step).lock != Some(pid) ==> Next(s, step).lock.None?
  {
    if step == PublishCopy(pid, true) && pid in s.loads && s.loads[pid].Loaded? && s.loads[pid].locked {
      assert Publishes(s, step, pid, s.loads[pid].copy);
    }
    if step.Execute? && step.command.Publish? && step.command.pid == pid && step.command in s.inFlight {
      assert Publishes(s, step, pid, step.command.copy);
    }
  }

  // ---------------------------------------------------------------------------------------------
  // A load on its own
  // ---------------------------------------------------------------------------------------------

  /** All steps of one load up to the lock, and those after it; what a path does not need only takes time. */
  function ToTheLock(pid: Pid, redisUp: bool): seq<Step> {
    [Begin(pid), ReadCache(pid, redisUp), TryLock(pid, redisUp), Poll(pid, redisUp), GiveUp(pid)]
  }

  function FromTheLock(pid: Pid, redisUp: bool, dbUp: bool): seq<Step> {
    [ReadAgain(pid, redisUp), ReadRow(pid, dbUp), PublishCopy(pid, redisUp), ReleaseLock(pid), Execute(Release(pid))]
  }

  lemma RunFirst(s: State, step: Step, rest: seq<Step>)
    ensures Run(s, [step] + rest) == Run(Next(s, step), rest)
  {
    assert ([step] + rest)[1..] == rest;
  }

  lemma RunFive(s: State, a: Step, b: Step, c: Step, d: Step, e: Step)
    ensures Run(s, [a, b, c, d, e]) == Next(Next(Next(Next(Next(s, a), b), c), d), e)
  {
    hide Next;
    RunFirst(s, a, [b, c, d, e]);
    RunFirst(Next(s, a), b, [c, d, e]);
    RunFirst(Next(Next(s, a), b), c, [d, e]);
    RunFirst(Next(Next(Next(s, a), b), c), d, [e]);
    RunFirst(Next(Next(Next(Next(s, a), b), c), d), e, []);
  }

  /** A state in which one load has got to `phase` and `ticks` steps have passed. */
  function Alone(s: State, pid: Pid, phase: Phase, ticks: nat): State {
    s.(clock := s.clock + ticks, loads := s.loads[pid := phase])
  }

  /** A step of this load that its phase has no use for. */
  predicate Idle(s: State, pid: Pid, step: Step) {
    pid in s.loads &&
    match step
    case Begin(p) => p == pid
    case ReadCache(p, _) => p == pid && !s.loads[pid].Asking?
    case TryLock(p, _) => p == pid && !s.loads[pid].Missed?
    case Poll(p, _) => p == pid && !s.loads[pid].Waiting?
    case GiveUp(p) => p == pid && !s.loads[pid].Waiting?
    case ReadAgain(p, _) => p == pid && !s.loads[pid].Locked?
    case ReadRow(p, _) => p == pid && !s.loads[pid].Ready?
    case PublishCopy(p, _) => p == pid && !s.loads[pid].Loaded?
    case ReleaseLock(p) => p == pid && !s.loads[pid].Releasing?
    case Execute(c) => c !in s.inFlight
    case _ => false
  }

  lemma Idles(s: State, pid: Pid, step: Step)
    requires Idle(s, pid, step)
    ensures Next(s, step) == Alone(s, pid, s.loads[pid], 1)
  {
    assert s.loads[pid := s.loads[pid]] == s.loads;
  }

  lemma AsksAlone(s: State, pid: Pid, redisUp: bool)
    requires pid !in s.loads
    ensures var phase := if !redisUp then Ready(false) else if s.value.Some? then Done(s.value) else Missed;
            Next(Next(s, Begin(pid)), ReadCache(pid, redisUp)) == Alone(s, pid, phase, 2)
  {
    assert Next(s, Begin(pid)) == Alone(s, pid, Asking, 1);
  }

  lemma LocksAlone(s: State, pid: Pid)
    requires In(s, pid, Missed)
    ensures Next(s, TryLock(pid, true)) ==
            Alone(s, pid, if s.lock.Some? then Waiting else Locked, 1).(
              spent := s.spent + {pid}, lock := if s.lock.Some? then s.lock else Some(pid))
  {
  }

  lemma WaitsAlone(s: State, pid: Pid)
    requires In(s, pid, Waiting) && s.value.None?
    ensures Next(Next(s, Poll(pid, true)), GiveUp(pid)) == Alone(s, pid, Done(None), 2)
  {
    assert Next(s, Poll(pid, true)) == Alone(s, pid, Waiting, 1);
  }

  lemma ReadsAgainAlone(s: State, pid: Pid)
    requires In(s, pid, Locked) && s.value.None?
    ensures Next(s, ReadAgain(pid, true)) == Alone(s, pid, Ready(true), 1)
  {
  }

  lemma ReadsRowAlone(s: State, pid: Pid, locked: bool, dbUp: bool)
    requires In(s, pid, Ready(locked))
    ensures var phase := if dbUp then Loaded(locked, Copy(s.row, s.clock))
                         else if locked then Releasing(None) else Done(None);
            Next(s, ReadRow(pid, dbUp)) == Alone(s, pid, phase, 1)
  {
  }

  lemma PublishesAlone(s: State, pid: Pid, copy: Copy)
    requires In(s, pid, Loaded(true, copy)) && s.lock == Some(pid)
    ensures Next(s, PublishCopy(pid, true)) ==
            Alone(s, pid, Releasing(Some(copy)), 1).(value := Some(copy), lock := None)
  {
  }

  lemma ReleasesAlone(s: State, pid: Pid, answer: Option<Copy>)
    requires In(s, pid, Releasing(answer)) && (s.lock.None? || s.lock == Some(pid)) && Release(pid) !in s.inFlight
    ensures Next(Next(s, ReleaseLock(pid)), Execute(Release(pid))) == Alone(s, pid, Done(answer), 2).(lock := None)
  {
    assert s.inFlight + {Release(pid)} - {Release(pid)} == s.inFlight;
  }

  lemma RunToTheLock(s: State, pid: Pid, redisUp: bool)
    requires pid !in s.loads
    ensures Run(s, ToTheLock(pid, redisUp)) ==
            if !redisUp then Alone(s, pid, Ready(false), 5)
            else if s.value.Some? then Alone(s, pid, Done(s.value), 5)
            else Alone(s, pid, if s.lock.Some? then Done(None) else Locked, 5).(
                   spent := s.spent + {pid}, lock := if s.lock.Some? then s.lock else Some(pid))
  {
    RunFive(s, Begin(pid), ReadCache(pid, redisUp), TryLock(pid, redisUp), Poll(pid, redisUp), GiveUp(pid));
    AsksAlone(s, pid, redisUp);
    var asked := Next(Next(s, Begin(pid)), ReadCache(pid, redisUp));
    hide Run, Next;
    if asked.loads[pid].Missed? {
      LocksAlone(asked, pid);
      var tried := Next(asked, TryLock(pid, true));
      if s.lock.Some? {
        WaitsAlone(tried, pid);
      } else {
        Idles(tried, pid, Poll(pid, true));
        Idles(Next(tried, Poll(pid, true)), pid, GiveUp(pid));
      }
    } else {
      Idles(asked, pid, TryLock(pid, redisUp));
      Idles(Next(asked, TryLock(pid, redisUp)), pid, Poll(pid, redisUp));
      Idles(Next(Next(asked, TryLock(pid, redisUp)), Poll(pid, redisUp)), pid, GiveUp(pid));
    }
  }

  lemma RunFromDone(s: State, pid: Pid, redisUp: bool, dbUp: bool)
    requires pid in s.loads && s.loads[pid].Done? && Release(pid) !in s.inFlight
    ensures Run(s, FromTheLock(pid, redisUp, dbUp)) == Alone(s, pid, s.loads[pid], 5)
  {
    hide Run, Next;
    RunFive(s, ReadAgain(pid, redisUp), ReadRow(pid, dbUp), PublishCopy(pid, redisUp), ReleaseLock(pid),
            Execute(Release(pid)));
    Idles(s, pid, ReadAgain(pid, redisUp));
    var again := Next(s, ReadAgain(pid, redisUp));
    Idles(again, pid, ReadRow(pid, dbUp));
    var read := Next(again, ReadRow(pid, dbUp));
    Idles(read, pid, PublishCopy(pid, redisUp));
    ReleasesNothing(Next(read, PublishCopy(pid, redisUp)), pid);
  }

  lemma ReleasesNothing(s: State, pid: Pid)
    requires pid in s.loads && s.loads[pid].Done? && Release(pid) !in s.inFlight
    ensures Next(Next(s, ReleaseLock(pid)), Execute(Release(pid))) == Alone(s, pid, s.loads[pid], 2)
  {
    hide Next;
    Idles(s, pid, ReleaseLock(pid));
    Idles(Next(s, ReleaseLock(pid)), pid, Execute(Release(pid)));
  }

  lemma RunWithoutLock(s: State, pid: Pid, redisUp: bool, dbUp: bool)
    requires In(s, pid, Ready(false)) && Release(pid) !in s.inFlight
    ensures var copy := if dbUp then Some(Copy(s.row, s.clock + 1)) else None;
            Run(s, FromTheLock(pid, redisUp, dbUp)) == Alone(s, pid, Done(copy), 5)
  {
    hide Run, Next;
    RunFive(s, ReadAgain(pid, redisUp), ReadRow(pid, dbUp), PublishCopy(pid, redisUp), ReleaseLock(pid),
            Execute(Release(pid)));
    Idles(s, pid, ReadAgain(pid, redisUp));
    var again := Next(s, ReadAgain(pid, redisUp));
    ReadsRowAlone(again, pid, false, dbUp);
    var read := Next(again, ReadRow(pid, dbUp));
    if dbUp {
      KeepsToItself(read, pid, redisUp);
    } else {
      Idles(read, pid, PublishCopy(pid, redisUp));
    }
    ReleasesNothing(Next(read, PublishCopy(pid, redisUp)), pid);
  }

  /** Without a lock nothing is published. */
  lemma KeepsToItself(s: State, pid: Pid, redisUp: bool)
    requires pid in s.loads && s.loads[pid].Loaded? && !s.loads[pid].locked
    ensures Next(s, PublishCopy(pid, redisUp)) == Alone(s, pid, Done(Some(s.loads[pid].copy)), 1)
  {
  }

  lemma RunFromLocked(s: State, pid: Pid, dbUp: bool)
    requires In(s, pid, Locked) && Release(pid) !in s.inFlight && s.value.None? && s.lock == Some(pid)
    ensures var copy := if dbUp then Some(Copy(s.row, s.clock + 1)) else None;
            Run(s, FromTheLock(pid, true, dbUp)) == Alone(s, pid, Done(copy), 5).(value := copy, lock := None)
  {
    hide Run, Next;
    RunFive(s, ReadAgain(pid, true), ReadRow(pid, dbUp), PublishCopy(pid, true), ReleaseLock(pid),
            Execute(Release(pid)));
    ReadsAgainAlone(s, pid);
    var again := Next(s, ReadAgain(pid, true));
    ReadsRowAlone(again, pid, true, dbUp);
    var read := Next(again, ReadRow(pid, dbUp));
    if dbUp {
      PublishesAlone(read, pid, Copy(s.row, s.clock + 1));
      ReleasesAlone(Next(read, PublishCopy(pid, true)), pid, Some(Copy(s.row, s.clock + 1)));
    } else {
      Idles(read, pid, PublishCopy(pid, true));
      ReleasesAlone(Next(read, PublishCopy(pid, true)), pid, None);
    }
  }

  /**
   An undisturbed load with a fresh token is answered from Redis exactly when Redis is up and has a value. It
   gives up when another load holds the lock; otherwise it reads the row, and leaves it in Redis exactly when
   Redis is up. In the end the lock is as it was.
   */
  lemma LoadAloneIff(s: State, pid: Pid, redisUp: bool, dbUp: bool)
    requires pid !in s.loads && s.lock != Some(pid) && forall c | c in s.inFlight :: c.pid != pid
    ensures var t := Run(Run(s, ToTheLock(pid, redisUp)), FromTheLock(pid, redisUp, dbUp));
            var hit := redisUp && s.value.Some?;
            var busy := redisUp && s.value.None? && s.lock.Some?;
            var copy := if dbUp then Some(Copy(s.row, s.clock + 6)) else None;
            && In(t, pid, Done(if hit then s.value else if busy then None else copy))
            && t.value == (if redisUp && !hit && !busy then copy else s.value)
            && t.lock == s.lock && t.inFlight == s.inFlight
  {
    hide Run;
    var locked := Run(s, ToTheLock(pid, redisUp));
    RunToTheLock(s, pid, redisUp);
    if locked.loads[pid].Locked? {
      RunFromLocked(locked, pid, dbUp);
    } else if locked.loads[pid].Done? {
      RunFromDone(locked, pid, redisUp, dbUp);
    } else {
      RunWithoutLock(locked, pid, redisUp, dbUp);
    }
  }

  /** A load that waits takes a value as soon as it sees one, and goes on without the lock when Redis is down. */
  lemma PollAlone(s: State, pid: Pid, redisUp: bool, dbUp: bool)
    requires In(s, pid, Waiting)
    ensures var t := Next(s, Poll(pid, redisUp));
            var u := Next(Next(t, ReadRow(pid, dbUp)), PublishCopy(pid, redisUp));
            && t.value == u.value == s.value && t.lock == u.lock == s.lock
            && (redisUp && s.value.None? ==> In(t, pid, Waiting))
            && (redisUp && s.value.Some? ==> In(t, pid, Done(s.value)))
            && (!redisUp && dbUp ==> In(u, pid, Done(Some(Copy(s.row, s.clock + 1)))))
            && (!redisUp && !dbUp ==> In(u, pid, Done(None)))
  {
    hide Next;
    var t := Next(s, Poll(pid, redisUp));
    PollsOnce(s, pid, redisUp);
    if redisUp {
      Idles(t, pid, ReadRow(pid, dbUp));
      Idles(Next(t, ReadRow(pid, dbUp)), pid, PublishCopy(pid, redisUp));
    } else {
      ReadsRowAlone(t, pid, false, dbUp);
      var read := Next(t, ReadRow(pid, dbUp));
      if dbUp {
        KeepsToItself(read, pid, redisUp);
      } else {
        Idles(read, pid, PublishCopy(pid, redisUp));
      }
    }
  }

  lemma PollsOnce(s: State, pid: Pid, redisUp: bool)
    requires In(s, pid, Waiting)
    ensures var phase := if !redisUp then Ready(false) else if s.value.Some? then Done(s.value) else Waiting;
            Next(s, Poll(pid, redisUp)) == Alone(s, pid, phase, 1)
  {
  }

  function Commits(steps: seq<Step>): nat {
    if steps == [] then 0 else (if steps[0].CommitRow? then 1 else 0) + Commits(steps[1..])
  }

  /** Versions count the commits, so a copy of the present version misses none. */
  lemma {:induction false} VersionsCountCommits(s: State, steps: seq<Step>)
    ensures Run(s, steps).row == s.row + Commits(steps)
    decreases |steps|
  {
    if steps != [] {
      VersionsCountCommits(Next(s, steps[0]), steps[1..]);
    }
  }

  /** A publication whose reply is lost may still fill the cache, as long as the lock is held. */
  lemma LostReplyMayFill(s: State, pid: Pid, copy: Copy)
    requires In(s, pid, Loaded(true, copy)) && s.lock == Some(pid)
    ensures var t := Next(s, PublishCopy(pid, false));
            && t.value == s.value && t.lock == s.lock && In(t, pid, Releasing(Some(copy)))
            && Publishes(t, Execute(Publish(pid, copy)), pid, copy)
            && Next(t, Execute(Publish(pid, copy))).value == Some(copy)
  {
  }

  /** A load that dies leaves its lock behind: others wait until it expires, and then the next one has it. */
  lemma DeadHolderBlocks(s: State, pid: Pid, other: Pid)
    requires pid in s.loads && pid != other && s.lock == Some(pid) && In(s, other, Missed)
    ensures var t := Next(s, Crash(pid));
            && In(t, pid, Done(None)) && t.lock == Some(pid) && t.value == s.value
            && In(Next(t, TryLock(other, true)), other, Waiting)
            && In(Next(Next(t, ExpireLock), TryLock(other, true)), other, Locked)
  {
  }
}
