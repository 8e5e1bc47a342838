/**
 One process's video details: the single-flight group and the epoch fence around the local cache
 (backend/resilience.go and the first lines of `detail` in backend/cache.go).

 `FlightGroup` is the group under its mutex. Then any number of `detail` calls, loads and
 invalidations are interleaved, one critical section at a time. A load may end with a value from Redis
 or the database, with a stale local value, or with an error; which of these happens is left open.
 */
module LocalFence {
  import opened Options
  import opened VideoMemory

  const MAX_FLIGHTS: nat := 1024

  // ---------------------------------------------------------------------------------------------
  // The flight group
  // ---------------------------------------------------------------------------------------------

  datatype Joined = Refused | Shared(flight: nat) | Leads(flight: nat)

  /** Joining a key: share its flight, lead a new one, or be refused when the group is full. */
  function Join<K>(calls: map<K, nat>, key: K, flight: nat): Joined {
    if key in calls then Shared(calls[key]) else if |calls| >= MAX_FLIGHTS then Refused else Leads(flight)
  }

  function Flying<K>(calls: map<K, nat>, key: K, flight: nat): map<K, nat> {
    if key in calls || |calls| >= MAX_FLIGHTS then calls else calls[key := flight]
  }

  class FlightGroup<K(==)> {
    var calls: map<K, nat>
    var flights: nat  // flights created so far; the next one gets this number

    constructor ()
      ensures calls == map[] && flights == 0
    {
      calls, flights := map[], 0;
    }

    method Do(key: K) returns (joined: Joined)
      modifies this
      ensures joined == Join(old(calls), key, old(flights)) && calls == Flying(old(calls), key, old(flights))
      ensures joined.Refused? <==> key !in old(calls) && |old(calls)| >= 1024
      ensures joined.Shared? <==> key in old(calls)
      ensures joined.Shared? ==> joined.flight == old(calls)[key]
      ensures joined.Leads? ==> joined.flight == old(flights)
      ensures calls == if joined.Leads? then old(calls)[key := old(flights)] else old(calls)
      ensures flights == old(flights) + if joined.Leads? then 1 else 0
    {
      if key in calls {
        return Shared(calls[key]);
      }
      if |calls| >= MAX_FLIGHTS {
        return Refused;
      }
      joined := Leads(flights);
      calls := calls[key := flights];
      flights := flights + 1;
    }

    method Land(key: K)
      modifies this`calls
      ensures calls == old(calls) - {key}
    {
      calls := calls - {key};
    }
  }

  // ---------------------------------------------------------------------------------------------
  // The state machine
  // ---------------------------------------------------------------------------------------------

  /** A value tagged with the load that brought it into this process. */
  datatype Sourced = Sourced(load: nat, missing: bool)

  datatype Outcome = Value(value: Sourced) | Failure

  datatype LoadPhase = Running | Returned(outcome: Outcome) | Landed(outcome: Outcome)

  /** A load works for a key, that is for an id and the generation its leader took. */
  datatype Load = Load(id: nat, generation: nat, phase: LoadPhase)

  datatype CallPhase = Begun | Missed | Keyed(generation: nat) | Waiting(load: nat) | Answered(outcome: Outcome)

  /** One `detail` call; `began` is the epoch when it started. */
  datatype Call = Call(id: nat, began: nat, phase: CallPhase)

  datatype State = State(
    now: int,
    log: seq<nat>,  // the ids invalidated so far; its length is the epoch
    videos: seq<LocalVideo<Sourced>>,
    flights: map<(nat, nat), nat>,
    loads: seq<Load>,
    calls: map<nat, Call>)

  datatype Step =
    | Tick(elapsed: nat)
    | Invalidate(id: nat)
    | Begin(call: nat, id: nat)
    | LookLocally(call: nat, later: int)
    | TakeGeneration(call: nat)
    | JoinFlight(call: nat)
    | Receive(call: nat)
    | Cancel(call: nat)
    | LookStale(load: nat, later: int)
    | Obtain(load: nat, missing: bool, keep: bool)
    | Fail(load: nat)
    | LandFlight(load: nat)

  const INIT := State(0, [], [], map[], [], map[])

  function SetCall(s: State, call: nat, phase: CallPhase): State
    requires call in s.calls
  {
    s.(calls := s.calls[call := s.calls[call].(phase := phase)])
  }

  function SetLoad(s: State, load: nat, phase: LoadPhase): State
    requires load < |s.loads|
  {
    s.(loads := s.loads[load := s.loads[load].(phase := phase)])
  }

  /** `detail`: local cache, generation, flight group, result. */
  function NextCall(s: State, step: Step): State {
    match step
    case Begin(call, id) =>
      if call in s.calls then s else s.(calls := s.calls[call := Call(id, |s.log|, Begun)])
    case LookLocally(call, later) =>
      if call in s.calls && s.calls[call].phase.Begun? then
        var id := s.calls[call].id;
        var t := s.(videos := Got(s.videos, id, false, s.now, later));
        match Hit(s.videos, id, false, s.now)
        case Some(value) => SetCall(t, call, Answered(Value(value)))
        case None => SetCall(t, call, Missed)
      else s
    case TakeGeneration(call) =>
      if call in s.calls && s.calls[call].phase.Missed? then SetCall(s, call, Keyed(|s.log|)) else s
    case JoinFlight(call) =>
      if call in s.calls && s.calls[call].phase.Keyed? then
        var id, generation := s.calls[call].id, s.calls[call].phase.generation;
        var t := s.(flights := Flying(s.flights, (id, generation), |s.loads|));
        match Join(s.flights, (id, generation), |s.loads|)
        case Refused => SetCall(t, call, Answered(Failure))
        case Shared(load) => SetCall(t, call, Waiting(load))
        case Leads(load) => SetCall(t, call, Waiting(load)).(loads := s.loads + [Load(id, generation, Running)])
      else s
    case Receive(call) =>
      if call in s.calls && s.calls[call].phase.Waiting? && s.calls[call].phase.load < |s.loads| &&
         s.loads[s.calls[call].phase.load].phase.Landed? then
        SetCall(s, call, Answered(s.loads[s.calls[call].phase.load].phase.outcome))
      else s
    case Cancel(call) =>
      if call in s.calls && s.calls[call].phase.Waiting? then SetCall(s, call, Answered(Failure)) else s
    case _ => s
  }

  /** The loader: it may look for a stale value, and puts what it obtained under its generation. */
  function NextLoad(s: State, step: Step): State {
    match step
    case LookStale(load, later) =>
      if load < |s.loads| && s.loads[load].phase.Running? then
        var id := s.loads[load].id;
        var t := s.(videos := Got(s.videos, id, true, s.now, later));
        match Hit(s.videos, id, true, s.now)
        case Some(value) => if value.missing then t else SetLoad(t, load, Returned(Value(value)))
        case None => t
      else s
    case Obtain(load, missing, keep) =>
      if load < |s.loads| && s.loads[load].phase.Running? then
        var Load(id, generation, _) := s.loads[load];
        var value := Sourced(load, missing);
        var t := if keep && generation == |s.log| then s.(videos := Stored(s.videos, id, value, missing, s.now)) else s;
        SetLoad(t, load, Returned(Value(value)))
      else s
    case Fail(load) =>
      if load < |s.loads| && s.loads[load].phase.Running? then SetLoad(s, load, Returned(Failure)) else s
    case LandFlight(load) =>
      if load < |s.loads| && s.loads[load].phase.Returned? then
        SetLoad(s, load, Landed(s.loads[load].phase.outcome)).(
          flights := s.flights - {(s.loads[load].id, s.loads[load].generation)})
      else s
    case _ => s
  }

  function Next(s: State, step: Step): State {
    match step
    case Tick(elapsed) => s.(now := s.now + elapsed)
    case Invalidate(id) => s.(log := s.log + [id], videos := Without(s.videos, id))
    case LookStale(_, _) => NextLoad(s, step)
    case Obtain(_, _, _) => NextLoad(s, step)
    case Fail(_) => NextLoad(s, step)
    case LandFlight(_) => NextLoad(s, step)
    case _ => NextCall(s, step)
  }

  function Run(s: State, steps: seq<Step>): State
    decreases |steps|
  {
    if steps == [] then s else Run(Next(s, steps[0]), steps[1..])
  }

  // ---------------------------------------------------------------------------------------------
  // The invariant
  // ---------------------------------------------------------------------------------------------

  /** Of the first `bound` invalidations, all those of `id` came before this value's load took its generation. */
  ghost predicate Newer(s: State, value: Sourced, id: nat, bound: nat) {
    && value.load < |s.loads|
    && s.loads[value.load].id == id
    && bound <= |s.log|
    && forall k | 0 <= k < bound && s.log[k] == id :: k < s.loads[value.load].generation
  }

  ghost predicate LoadOk(s: State, load: nat)
    requires load < |s.loads|
  {
    var l := s.loads[load];
    && l.generation <= |s.log|
    && (!l.phase.Landed? ==> (l.id, l.generation) in s.flights && s.flights[(l.id, l.generation)] == load)
    && (!l.phase.Running? && l.phase.outcome.Value? ==> Newer(s, l.phase.outcome.value, l.id, l.generation))
  }

  ghost predicate CallOk(s: State, c: Call) {
    && c.began <= |s.log|
    && match c.phase
       case Keyed(generation) => c.began <= generation <= |s.log|
       case Waiting(load) => load < |s.loads| && s.loads[load].id == c.id && c.began <= s.loads[load].generation
       case Answered(Value(value)) => Newer(s, value, c.id, c.began)
       case _ => true
  }

  ghost predicate FlightOk(s: State, key: (nat, nat)) {
    key in s.flights ==>
      && s.flights[key] < |s.loads|
      && !s.loads[s.flights[key]].phase.Landed?
      && (s.loads[s.flights[key]].id, s.loads[s.flights[key]].generation) == key
  }

  ghost predicate Inv(s: State) {
    && |s.flights| <= MAX_FLIGHTS
    && (forall key :: FlightOk(s, key))
    && (forall load | 0 <= load < |s.loads| :: LoadOk(s, load))
    && (forall e | e in s.videos :: Newer(s, e.value, e.id, |s.log|))
    && (forall call | call in s.calls :: CallOk(s, s.calls[call]))
  }

  /** Loads never change id or generation, and the log only grows. */
  ghost predicate Grows(s: State, t: State) {
    && |s.loads| <= |t.loads|
    && (forall l | 0 <= l < |s.loads| ::
          t.loads[l].id == s.loads[l].id && t.loads[l].generation == s.loads[l].generation)
    && s.log <= t.log
  }

  lemma NewerGrows(s: State, t: State)
    requires Grows(s, t)
    ensures forall value, id, bound :: Newer(s, value, id, bound) ==> Newer(t, value, id, bound)
  {
  }

  lemma SmallerBound(s: State, value: Sourced, id: nat, bound: nat, less: nat)
    requires Newer(s, value, id, bound) && less <= bound
    ensures Newer(s, value, id, less)
  {
  }

  lemma CallsGrow(s: State, t: State)
    requires Grows(s, t)
    ensures forall c :: CallOk(s, c) ==> CallOk(t, c)
  {
    NewerGrows(s, t);
  }

  /** Steps that leave flights and loads alone. */
  lemma SameLoadsKeep(s: State, t: State)
    requires Inv(s) && t.flights == s.flights && t.loads == s.loads && s.log <= t.log
    ensures forall key :: FlightOk(t, key)
    ensures forall load | 0 <= load < |t.loads| :: LoadOk(t, load)
    ensures forall c :: CallOk(s, c) ==> CallOk(t, c)
  {
    CallsGrow(s, t);
    NewerGrows(s, t);
    forall key ensures FlightOk(t, key) { assert FlightOk(s, key); }
    forall load | 0 <= load < |t.loads| ensures LoadOk(t, load) { assert LoadOk(s, load); }
  }

  lemma InvalidateKeeps(s: State, id: nat)
    requires Inv(s)
    ensures Inv(Next(s, Invalidate(id))) && Grows(s, Next(s, Invalidate(id)))
  {
    var t := Next(s, Invalidate(id));
    SameLoadsKeep(s, t);
    forall e | e in t.videos ensures Newer(t, e.value, e.id, |t.log|) {
      assert Newer(s, e.value, e.id, |s.log|) && e.id != id;
    }
  }

  lemma GotMembers<V>(s: seq<LocalVideo<V>>, id: nat, stale: bool, now: int, later: int)
    ensures forall e | e in Got(s, id, stale, now, later) :: e in s
    ensures Hit(s, id, stale, now).Some? ==> exists e | e in s :: e.id == id && e.value == Hit(s, id, stale, now).value
  {
  }

  lemma StoredMembers<V>(s: seq<LocalVideo<V>>, id: nat, value: V, missing: bool, now: int)
    ensures forall e | e in Stored(s, id, value, missing, now) :: e in s || (e.id == id && e.value == value)
  {
  }

  lemma LookLocallyKeeps(s: State, call: nat, later: int)
    requires Inv(s)
    ensures Inv(Next(s, LookLocally(call, later))) && Grows(s, Next(s, LookLocally(call, later)))
  {
    var t := Next(s, LookLocally(call, later));
    SameLoadsKeep(s, t);
    if t != s {
      var c := s.calls[call];
      GotMembers(s.videos, c.id, false, s.now, later);
      assert CallOk(s, c);
      if Hit(s.videos, c.id, false, s.now).Some? {
        var e :| e in s.videos && e.id == c.id && e.value == Hit(s.videos, c.id, false, s.now).value;
        SmallerBound(s, e.value, c.id, |s.log|, c.began);
      }
    }
  }

  lemma SimpleCallKeeps(s: State, step: Step)
    requires Inv(s)
    requires step.Begin? || step.TakeGeneration? || step.Receive? || step.Cancel? || step.Tick?
    ensures Inv(Next(s, step)) && Grows(s, Next(s, step))
  {
    hide Newer;
    var t := Next(s, step);
    SameLoadsKeep(s, t);
    NewerGrows(s, t);
    if step.Receive? && t != s {
      var c := s.calls[step.call];
      assert CallOk(s, c) && LoadOk(s, c.phase.load);
      var outcome := s.loads[c.phase.load].phase.outcome;
      if outcome.Value? {
        SmallerBound(s, outcome.value, c.id, s.loads[c.phase.load].generation, c.began);
      }
    }
  }

  lemma JoinFlightKeeps(s: State, call: nat)
    requires Inv(s) && call in s.calls && s.calls[call].phase.Keyed?
    ensures Inv(Next(s, JoinFlight(call))) && Grows(s, Next(s, JoinFlight(call)))
  {
    hide Newer;
    var t := Next(s, JoinFlight(call));
    var key := (s.calls[call].id, s.calls[call].phase.generation);
    assert CallOk(s, s.calls[call]) && FlightOk(s, key);
    CallsGrow(s, t);
    NewerGrows(s, t);
    forall k ensures FlightOk(t, k) { assert FlightOk(s, k); }
    forall load | 0 <= load < |t.loads| ensures LoadOk(t, load) {
      if load < |s.loads| { assert LoadOk(s, load); }
    }
  }

  lemma LookStaleKeeps(s: State, load: nat, later: int)
    requires Inv(s) && load < |s.loads| && s.loads[load].phase.Running?
    ensures Inv(Next(s, LookStale(load, later))) && Grows(s, Next(s, LookStale(load, later)))
  {
    var id := s.loads[load].id;
    var u := s.(videos := Got(s.videos, id, true, s.now, later));
    GotMembers(s.videos, id, true, s.now, later);
    VideosKeep(s, u);
    assert LoadOk(s, load);
    if Hit(s.videos, id, true, s.now).Some? {
      var e :| e in s.videos && e.id == id && e.value == Hit(s.videos, id, true, s.now).value;
      SmallerBound(s, e.value, id, |s.log|, s.loads[load].generation);
      ReturnKeeps(u, load, Value(e.value));
    }
  }

  /** A running load returns; its flight stays in the group until it lands. */
  lemma ReturnKeeps(s: State, load: nat, outcome: Outcome)
    requires Inv(s) && load < |s.loads| && s.loads[load].phase.Running?
    requires outcome.Value? ==> Newer(s, outcome.value, s.loads[load].id, s.loads[load].generation)
    ensures Inv(SetLoad(s, load, Returned(outcome))) && Grows(s, SetLoad(s, load, Returned(outcome)))
  {
    var t := SetLoad(s, load, Returned(outcome));
    CallsGrow(s, t);
    NewerGrows(s, t);
    assert LoadOk(s, load);
    forall k ensures FlightOk(t, k) { assert FlightOk(s, k); }
    forall l | 0 <= l < |t.loads| ensures LoadOk(t, l) { assert LoadOk(s, l); }
  }

  /** Changing the local cache keeps the invariant if every video in it is newer than the whole log. */
  lemma VideosKeep(s: State, t: State)
    requires Inv(s) && t == s.(videos := t.videos)
    requires forall e | e in t.videos :: Newer(s, e.value, e.id, |s.log|)
    ensures Inv(t) && Grows(s, t)
  {
    SameLoadsKeep(s, t);
  }

  /** What a load obtains from outside is as new as its generation. */
  lemma OwnValueIsNewer(s: State, load: nat, missing: bool)
    requires Inv(s) && load < |s.loads|
    ensures Newer(s, Sourced(load, missing), s.loads[load].id, s.loads[load].generation)
  {
    assert LoadOk(s, load);
  }

  lemma ObtainedVideosKeep(s: State, load: nat, missing: bool)
    requires Inv(s) && load < |s.loads| && s.loads[load].generation == |s.log|
    ensures var u := s.(videos := Stored(s.videos, s.loads[load].id, Sourced(load, missing), missing, s.now));
            Inv(u) && Grows(s, u)
  {
    hide Stored;
    var id, value := s.loads[load].id, Sourced(load, missing);
    StoredMembers(s.videos, id, value, missing, s.now);
    OwnValueIsNewer(s, load, missing);
    VideosKeep(s, s.(videos := Stored(s.videos, id, value, missing, s.now)));
  }

  lemma ObtainKeeps(s: State, load: nat, missing: bool, keep: bool)
    requires Inv(s) && load < |s.loads| && s.loads[load].phase.Running?
    ensures var t := Next(s, Obtain(load, missing, keep)); Inv(t) && Grows(s, t)
  {
    hide Inv, Newer, Stored;
    var Load(id, generation, _) := s.loads[load];
    var value := Sourced(load, missing);
    var u := if keep && generation == |s.log| then s.(videos := Stored(s.videos, id, value, missing, s.now)) else s;
    if keep && generation == |s.log| {
      ObtainedVideosKeep(s, load, missing);
    }
    OwnValueIsNewer(u, load, missing);
    ReturnKeeps(u, load, Value(value));
  }

  lemma RemovalShrinks<K, V>(m: map<K, V>, key: K)
    ensures |m - {key}| <= |m|
  {
    if key in m {
      assert m == (m - {key})[key := m[key]];
    } else {
      assert m - {key} == m;
    }
  }

  /** Only the landing load had this key, so no other load loses its flight. */
  lemma OthersKeepFlying(s: State, t: State, load: nat, l: nat)
    requires Inv(s) && load < |s.loads| && s.loads[load].phase.Returned? && t == Next(s, LandFlight(load))
    requires l < |s.loads| && Grows(s, t)
    ensures LoadOk(t, l)
  {
    NewerGrows(s, t);
    assert LoadOk(s, l) && LoadOk(s, load);
  }

  lemma LandKeeps(s: State, load: nat)
    requires Inv(s) && load < |s.loads| && s.loads[load].phase.Returned?
    ensures Inv(Next(s, LandFlight(load))) && Grows(s, Next(s, LandFlight(load)))
  {
    var t := Next(s, LandFlight(load));
    assert LoadOk(s, load);
    CallsGrow(s, t);
    NewerGrows(s, t);
    RemovalShrinks(s.flights, (s.loads[load].id, s.loads[load].generation));
    forall k ensures FlightOk(t, k) { assert FlightOk(s, k); }
    forall l | 0 <= l < |t.loads| ensures LoadOk(t, l) { OthersKeepFlying(s, t, load, l); }
  }

  lemma StepKeeps(s: State, step: Step)
    requires Inv(s)
    ensures Inv(Next(s, step)) && Grows(s, Next(s, step))
  {
    match step {
      case Invalidate(id) => InvalidateKeeps(s, id);
      case LookLocally(call, later) => LookLocallyKeeps(s, call, later);
      case JoinFlight(call) => if call in s.calls && s.calls[call].phase.Keyed? { JoinFlightKeeps(s, call); }
      case LookStale(load, later) =>
        if load < |s.loads| && s.loads[load].phase.Running? { LookStaleKeeps(s, load, later); }
      case Obtain(load, missing, keep) =>
        if load < |s.loads| && s.loads[load].phase.Running? { ObtainKeeps(s, load, missing, keep); }
      case Fail(load) => if load < |s.loads| && s.loads[load].phase.Running? { ReturnKeeps(s, load, Failure); }
      case LandFlight(load) => if load < |s.loads| && s.loads[load].phase.Returned? { LandKeeps(s, load); }
      case _ => SimpleCallKeeps(s, step);
    }
  }

  lemma {:induction false} RunKeeps(s: State, steps: seq<Step>)
    requires Inv(s)
    ensures Inv(Run(s, steps)) && Grows(s, Run(s, steps))
    decreases |steps|
  {
    if steps != [] {
      StepKeeps(s, steps[0]);
      RunKeeps(Next(s, steps[0]), steps[1..]);
    }
  }

  // ---------------------------------------------------------------------------------------------
  // Main results
  // ---------------------------------------------------------------------------------------------

  /** In every reachable state no key has two unfinished loads, and at most 1024 flights are held. */
  lemma OneLoadPerKey(steps: seq<Step>, one: nat, other: nat)
    requires one < |Run(INIT, steps).loads| && other < |Run(INIT, steps).loads|
    ensures var s := Run(INIT, steps);
      && |s.flights| <= MAX_FLIGHTS
      && ((s.loads[one].id, s.loads[one].generation) == (s.loads[other].id, s.loads[other].generation) ==>
            one == other || s.loads[one].phase.Landed? || s.loads[other].phase.Landed?)
  {
    RunKeeps(INIT, steps);
    assert LoadOk(Run(INIT, steps), one) && LoadOk(Run(INIT, steps), other);
  }

  lemma {:induction false} LateCallsBeganLate(s: State, steps: seq<Step>, call: nat)
    requires call in Run(s, steps).calls
    ensures call in s.calls || |s.log| <= Run(s, steps).calls[call].began
    decreases |steps|
  {
    if steps != [] {
      LateCallsBeganLate(Next(s, steps[0]), steps[1..], call);
      if call !in s.calls && call in Next(s, steps[0]).calls {
        BeganIsKept(Next(s, steps[0]), steps[1..], call);
      }
    }
  }

  lemma CallIsKept(s: State, step: Step, call: nat)
    requires call in s.calls
    ensures call in Next(s, step).calls && Next(s, step).calls[call].began == s.calls[call].began
  {
  }

  lemma {:induction false} BeganIsKept(s: State, steps: seq<Step>, call: nat)
    requires call in s.calls
    ensures call in Run(s, steps).calls && Run(s, steps).calls[call].began == s.calls[call].began
    decreases |steps|
  {
    if steps != [] {
      CallIsKept(s, steps[0], call);
      BeganIsKept(Next(s, steps[0]), steps[1..], call);
    }
  }

  /**
   A `detail` call that starts after a local invalidation of its id never answers with the result of a
   load that took its generation before that invalidation: not from the local cache, not as a stale
   fallback, and not through a shared flight.
   */
  lemma NoResultFromBeforeInvalidation(before: seq<Step>, after: seq<Step>, call: nat, id: nat)
    requires var s := Next(Run(INIT, before), Invalidate(id));
      call !in s.calls && call in Run(s, after).calls && Run(s, after).calls[call].id == id
    ensures var s := Next(Run(INIT, before), Invalidate(id));
      var t := Run(s, after);
      match t.calls[call].phase
      case Answered(Value(value)) => value.load < |t.loads| && |s.log| <= t.loads[value.load].generation
      case _ => true
  {
    RunKeeps(INIT, before);
    StepKeeps(Run(INIT, before), Invalidate(id));
    var s := Next(Run(INIT, before), Invalidate(id));
    RunKeeps(s, after);
    LateCallsBeganLate(s, after, call);
    assert CallOk(Run(s, after), Run(s, after).calls[call]);
    assert Run(s, after).log[|s.log| - 1] == id;
  }

  // ---------------------------------------------------------------------------------------------
  // One load for two calls
  // ---------------------------------------------------------------------------------------------

  /** Up to the wait for a flight. */
  function Joining(s: State, call: nat, id: nat, later: int): State {
    JoinNow(Next(Next(s, Begin(call, id)), LookLocally(call, later)), call)
  }

  function JoinNow(s: State, call: nat): State {
    Next(Next(s, TakeGeneration(call)), JoinFlight(call))
  }

  /**
   A call that has missed locally, however long ago, joins the load of the present generation, leads a new one,
   or is turned away.
   */
  lemma JoinNowAlone(s: State, call: nat)
    requires call in s.calls && s.calls[call].phase == Missed
    ensures var t := JoinNow(s, call);
            var key := (s.calls[call].id, |s.log|);
            && call in t.calls && t.now == s.now && t.log == s.log && t.videos == s.videos
            && t.calls == s.calls[call := s.calls[call].(phase := t.calls[call].phase)]
            && (key in s.flights ==> t.calls[call].phase == Waiting(s.flights[key]) && t.loads == s.loads
                                     && t.flights == s.flights)
            && (key !in s.flights && |s.flights| < 1024 ==>
                  && t.calls[call].phase == Waiting(|s.loads|) && t.flights == s.flights[key := |s.loads|]
                  && t.loads == s.loads + [Load(s.calls[call].id, |s.log|, Running)])
            && (key !in s.flights && |s.flights| >= 1024 ==>
                  t.calls[call].phase == Answered(Failure) && t.loads == s.loads && t.flights == s.flights)
  {
    var keyed := s.(calls := s.calls[call := s.calls[call].(phase := Keyed(|s.log|))]);
    assert Next(s, TakeGeneration(call)) == keyed;
  }

  ghost predicate WaitsFor(s: State, call: nat, id: nat, load: nat) {
    call in s.calls && s.calls[call].id == id && s.calls[call].phase == Waiting(load)
  }

  /** A call that finds nothing locally leads a new load, joins the one under way, or is turned away. */
  lemma JoiningAlone(s: State, call: nat, id: nat, later: int)
    requires call !in s.calls && Hit(s.videos, id, false, s.now).None?
    ensures var t := Joining(s, call, id, later);
            var key := (id, |s.log|);
            && call in t.calls && t.now == s.now && t.log == s.log
            && t.videos == Got(s.videos, id, false, s.now, later)
            && t.calls == s.calls[call := Call(id, |s.log|, t.calls[call].phase)]
            && (key in s.flights ==> t.calls[call].phase == Waiting(s.flights[key]) && t.loads == s.loads
                                     && t.flights == s.flights)
            && (key !in s.flights && |s.flights| < 1024 ==>
                  && t.calls[call].phase == Waiting(|s.loads|) && t.flights == s.flights[key := |s.loads|]
                  && t.loads == s.loads + [Load(id, |s.log|, Running)])
            && (key !in s.flights && |s.flights| >= 1024 ==> t.calls[call].phase == Answered(Failure))
  {
    hide Got, Hit;
    var begun := s.(calls := s.calls[call := Call(id, |s.log|, Begun)]);
    assert Next(s, Begin(call, id)) == begun;
    var videos := Got(s.videos, id, false, s.now, later);
    var missed := s.(calls := s.calls[call := Call(id, |s.log|, Missed)], videos := videos);
    assert Next(begun, LookLocally(call, later)) == missed;
    JoinNowAlone(missed, call);
  }

  lemma MissStaysMiss<V>(s: seq<LocalVideo<V>>, id: nat, now: int, later: int)
    requires Hit(s, id, false, now).None?
    ensures Hit(Got(s, id, false, now, later), id, false, now).None?
  {
  }

  lemma StoredIsHit<V>(s: seq<LocalVideo<V>>, id: nat, value: V, missing: bool, now: int, elapsed: nat)
    ensures Hit(Stored(s, id, value, missing, now), id, false, now + elapsed) ==
            if elapsed < 1000 then Some(value) else None
  {
    var r := [LocalVideo(id, value, now + 1000, StaleAt(missing, now))] + Without(s, id);
    assert r[0].id == id;
    if |r| > CAPACITY {
      assert r[|r| - 1] == Without(s, id)[|r| - 2];
    }
  }

  /** The state in which the load of both calls has brought a value and both have received it. */
  function Delivering(s: State, load: nat, missing: bool, keep: bool, first: nat, second: nat): State {
    var landed := Next(Next(s, Obtain(load, missing, keep)), LandFlight(load));
    Next(Next(landed, Receive(first)), Receive(second))
  }

  /** What a running load obtains is what both calls that wait for it get, and what it keeps if it is to. */
  lemma DeliversAlone(s: State, load: nat, missing: bool, keep: bool, first: nat, second: nat)
    requires load < |s.loads| && s.loads[load] == Load(s.loads[load].id, |s.log|, Running) && first != second
    requires WaitsFor(s, first, s.loads[load].id, load) && WaitsFor(s, second, s.loads[load].id, load)
    ensures var t := Delivering(s, load, missing, keep, first, second);
            var value := Sourced(load, missing);
            && first in t.calls && t.calls[first].phase == Answered(Value(value))
            && second in t.calls && t.calls[second].phase == Answered(Value(value))
            && t.flights == s.flights - {(s.loads[load].id, |s.log|)} && t.now == s.now && t.log == s.log
            && t.videos == if keep then Stored(s.videos, s.loads[load].id, value, missing, s.now) else s.videos
  {
    hide Stored;
    var returned := Next(s, Obtain(load, missing, keep));
    assert returned.loads[load].phase == Returned(Value(Sourced(load, missing)));
    assert returned.calls == s.calls;
    var landed := Next(returned, LandFlight(load));
    assert landed.loads[load].phase == Landed(Value(Sourced(load, missing))) && landed.calls == s.calls;
    var received := Next(landed, Receive(first));
    assert received.loads == landed.loads && received.calls[second] == s.calls[second];
  }

  /**
   Two calls for a video that is not held locally, the second made before the first is answered, are answered
   with the value of one load. For just a second, if it is kept, later calls find that value.
   */
  lemma OneLoadServesBoth(s: State, id: nat, first: nat, second: nat, later: int, missing: bool, keep: bool,
                          elapsed: nat)
    requires first != second && first !in s.calls && second !in s.calls && Hit(s.videos, id, false, s.now).None?
    requires (id, |s.log|) !in s.flights && |s.flights| < 1024
    ensures var load := |s.loads|;
            var waiting := Joining(Joining(s, first, id, later), second, id, later);
            var t := Delivering(waiting, load, missing, keep, first, second);
            && |waiting.loads| == |s.loads| + 1
            && first in t.calls && t.calls[first].phase == Answered(Value(Sourced(load, missing)))
            && second in t.calls && t.calls[second].phase == Answered(Value(Sourced(load, missing)))
            && t.flights == s.flights
            && (keep && elapsed < 1000 ==> Hit(t.videos, id, false, s.now + elapsed) == Some(Sourced(load, missing)))
            && (keep && elapsed >= 1000 ==> Hit(t.videos, id, false, s.now + elapsed) == None)
  {
    hide Joining, Delivering, Got, Hit, Stored;
    var load := |s.loads|;
    JoiningAlone(s, first, id, later);
    var joined := Joining(s, first, id, later);
    MissStaysMiss(s.videos, id, s.now, later);
    JoiningAlone(joined, second, id, later);
    var waiting := Joining(joined, second, id, later);
    assert waiting.loads[load] == Load(id, |s.log|, Running);
    DeliversAlone(waiting, load, missing, keep, first, second);
    assert s.flights[(id, |s.log|) := load] - {(id, |s.log|)} == s.flights;
    StoredIsHit(waiting.videos, id, Sourced(load, missing), missing, s.now, elapsed);
  }

  /** A load that fails looks for a video put less than a minute ago, and answers it unless it was missing. */
  lemma StaleAnswers(s: State, load: nat, later: int)
    requires load < |s.loads| && s.loads[load].phase.Running?
    ensures var held := Find(s.videos, s.loads[load].id);
            var answers := held.Some? && s.now < held.value.staleUntil && !held.value.value.missing;
            var t := Next(s, LookStale(load, later));
            t.loads == if answers then s.loads[load := s.loads[load].(phase := Returned(Value(held.value.value)))]
                       else s.loads
  {
  }

  /** A load that fails answers everyone who waits for it with a failure, and leaves the group. */
  lemma FailsAlone(s: State, load: nat, call: nat)
    requires load < |s.loads| && s.loads[load].phase == Running && WaitsFor(s, call, s.loads[load].id, load)
    ensures var t := Next(Next(Next(s, Fail(load)), LandFlight(load)), Receive(call));
            && call in t.calls && t.calls[call].phase == Answered(Failure) && t.videos == s.videos
            && t.flights == s.flights - {(s.loads[load].id, s.loads[load].generation)}
  {
    var failed := Next(s, Fail(load));
    assert failed.loads[load].phase == Returned(Failure) && failed.calls == s.calls;
    var landed := Next(failed, LandFlight(load));
    assert landed.loads[load].phase == Landed(Failure) && landed.calls == s.calls;
  }

  /** A caller that gives up is answered at once; the load and everyone else go on. */
  lemma CancelsAlone(s: State, call: nat)
    requires call in s.calls && s.calls[call].phase.Waiting?
    ensures var t := Next(s, Cancel(call));
            && call in t.calls && t.calls[call].phase == Answered(Failure)
            && t == s.(calls := t.calls)
            && forall c | c in s.calls && c != call :: c in t.calls && t.calls[c] == s.calls[c]
  {
  }
}
