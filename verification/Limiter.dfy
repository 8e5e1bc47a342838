/**
 The in-process rate limiter `memoryLimiter` (backend/resilience.go): a fixed window per key, in a map
 that is swept only when it is full. It is compared with a limiter whose map is unbounded and never
 swept. Times are in milliseconds.
 */
module Limiter {
  import opened Sets

  const MAX_KEYS: nat := 10_000

  type Key = string

  datatype LocalLimit = LocalLimit(count: int, expires: int)

  datatype Answer = Granted | Denied | Busy

  type Windows = map<Key, LocalLimit>

  // ---------------------------------------------------------------------------------------------
  // One call
  // ---------------------------------------------------------------------------------------------

  /** A missing key behaves like one whose window ended long ago. */
  function Counted(m: Windows, key: Key, window: int, now: int): LocalLimit {
    if key in m && now < m[key].expires then m[key].(count := m[key].count + 1)
    else LocalLimit(1, now + window)
  }

  function Swept(m: Windows, now: int): Windows {
    map key | key in m && now < m[key].expires :: m[key]
  }

  /** The map a call leaves behind when it has to make room first. */
  function Room(m: Windows, key: Key, now: int): Windows {
    if key !in m && |m| >= MAX_KEYS then Swept(m, now) else m
  }

  function Taken(m: Windows, key: Key, window: int, now: int): Windows {
    var r := Room(m, key, now);
    if key !in m && |r| >= MAX_KEYS then r else r[key := Counted(r, key, window, now)]
  }

  function Answered(m: Windows, key: Key, max: int, window: int, now: int): Answer {
    var r := Room(m, key, now);
    if key !in m && |r| >= MAX_KEYS then Busy
    else if Counted(r, key, window, now).count <= max then Granted
    else Denied
  }

  class MemoryLimiter {
    var entries: Windows

    constructor ()
      ensures entries == map[]
    {
      entries := map[];
    }

    method Sweep(now: int)
      modifies this
      ensures entries == Swept(old(entries), now)
    {
      var keys := entries.Keys;
      while keys != {}
        invariant keys <= entries.Keys <= old(entries).Keys
        invariant forall k | k in entries :: entries[k] == old(entries)[k]
        invariant forall k | k in old(entries) && k !in keys :: k in entries <==> now < old(entries)[k].expires
        decreases |keys|
      {
        var k :| k in keys;
        if now >= entries[k].expires {
          entries := entries - {k};
        }
        keys := keys - {k};
      }
    }

    method Take(key: Key, max: int, window: int, now: int) returns (answer: Answer)
      modifies this
      ensures entries == Taken(old(entries), key, window, now)
      ensures answer == Answered(old(entries), key, max, window, now)
    {
      var known := key in entries;
      if !known && |entries| >= MAX_KEYS {
        Sweep(now);
        if |entries| >= MAX_KEYS {
          return Busy;
        }
      }
      // A missing key reads as the zero value, whose window has ended at any time.
      var v := if key in entries then entries[key] else LocalLimit(0, now);
      if now >= v.expires {
        v := LocalLimit(0, now + window);
      }
      v := v.(count := v.count + 1);
      entries := entries[key := v];
      answer := if v.count <= max then Granted else Denied;
    }
  }

  // ---------------------------------------------------------------------------------------------
  // Runs, for a fixed allowance per key and a clock that never goes back
  // ---------------------------------------------------------------------------------------------

  datatype Call = Call(key: Key, now: int)

  /** What each key is limited to: at most `max(k)` calls per window of length `window(k)`. */
  datatype Rule = Rule(max: Key -> int, window: Key -> int)

  predicate Timely(calls: seq<Call>, from: int) {
    calls == [] || (from <= calls[0].now && Timely(calls[1..], calls[0].now))
  }

  function Entries(m: Windows, rule: Rule, calls: seq<Call>): Windows
    decreases |calls|
  {
    if calls == [] then m
    else Entries(Taken(m, calls[0].key, rule.window(calls[0].key), calls[0].now), rule, calls[1..])
  }

  function Answers(m: Windows, rule: Rule, calls: seq<Call>): (r: seq<Answer>)
    ensures |r| == |calls|
    decreases |calls|
  {
    if calls == [] then []
    else
      var c := calls[0];
      [Answered(m, c.key, rule.max(c.key), rule.window(c.key), c.now)] +
      Answers(Taken(m, c.key, rule.window(c.key), c.now), rule, calls[1..])
  }

  /** The unbounded limiter; `served` says which calls reach it, namely those that were not busy. */
  function NaiveAnswers(u: Windows, rule: Rule, calls: seq<Call>, served: seq<bool>): (r: seq<Answer>)
    requires |served| == |calls|
    ensures |r| == |calls|
    decreases |calls|
  {
    if calls == [] then []
    else
      var c := calls[0];
      if !served[0] then [Busy] + NaiveAnswers(u, rule, calls[1..], served[1..])
      else
        var v := Counted(u, c.key, rule.window(c.key), c.now);
        [if v.count <= rule.max(c.key) then Granted else Denied] +
        NaiveAnswers(u[c.key := v], rule, calls[1..], served[1..])
  }

  function Served(answers: seq<Answer>): (r: seq<bool>)
    ensures |r| == |answers|
  {
    if answers == [] then [] else [!answers[0].Busy?] + Served(answers[1..])
  }

  /** The bounded map agrees with the unbounded one except for windows that have ended. */
  ghost predicate Agrees(m: Windows, u: Windows, now: int) {
    && (forall k | k in m :: k in u && u[k] == m[k])
    && (forall k | k in u && k !in m :: u[k].expires <= now)
  }

  lemma SweptAgrees(m: Windows, u: Windows, key: Key, now: int)
    requires Agrees(m, u, now)
    ensures Agrees(Room(m, key, now), u, now)
  {
  }

  /**
   For every sequence of calls the bounded limiter answers exactly as the unbounded limiter would if
   the busy calls had not been made.
   */
  lemma {:induction false} RefinesUnbounded(m: Windows, u: Windows, rule: Rule, calls: seq<Call>, from: int)
    requires Agrees(m, u, from) && Timely(calls, from)
    ensures Answers(m, rule, calls) == NaiveAnswers(u, rule, calls, Served(Answers(m, rule, calls)))
    decreases |calls|
  {
    if calls != [] {
      var c := calls[0];
      SweptAgrees(m, u, c.key, c.now);
      var t := Taken(m, c.key, rule.window(c.key), c.now);
      var answers := Answers(m, rule, calls);
      assert answers[1..] == Answers(t, rule, calls[1..]);
      assert Served(answers)[1..] == Served(answers[1..]);
      if answers[0].Busy? {
        RefinesUnbounded(t, u, rule, calls[1..], c.now);
      } else {
        var v := Counted(u, c.key, rule.window(c.key), c.now);
        assert v == Counted(Room(m, c.key, c.now), c.key, rule.window(c.key), c.now);
        RefinesUnbounded(t, u[c.key := v], rule, calls[1..], c.now);
      }
    }
  }

  lemma SweptIsSmaller(m: Windows, now: int)
    ensures Swept(m, now).Keys <= m.Keys && |Swept(m, now)| <= |m|
  {
    SubsetSize(Swept(m, now).Keys, m.Keys);
    assert |Swept(m, now)| == |Swept(m, now).Keys|;
  }

  /** The keys whose windows have not ended. */
  ghost function Open(m: Windows, now: int): set<Key> {
    set key | key in m && now < m[key].expires
  }

  lemma OpenIsSwept(m: Windows, now: int)
    ensures |Swept(m, now)| == |Open(m, now)| <= |m|
  {
    assert Swept(m, now).Keys == Open(m, now);
    SweptIsSmaller(m, now);
  }

  /** A call is turned away exactly when its key is new and 10000 stored windows have not ended. */
  lemma BusyIff(m: Windows, key: Key, max: int, window: int, now: int)
    ensures Answered(m, key, max, window, now) == Busy <==> key !in m && |Open(m, now)| >= 10_000
  {
    OpenIsSwept(m, now);
  }

  /**
   A call that is not turned away opens a window, or counts one more in the window that is open; it is granted
   exactly when the count is within the allowance.
   */
  lemma GrantedIff(m: Windows, key: Key, max: int, window: int, now: int)
    requires Answered(m, key, max, window, now) != Busy
    ensures var t := Taken(m, key, window, now);
            var open := key in m && now < m[key].expires;
            && key in t && t[key] == LocalLimit(if open then m[key].count + 1 else 1,
                                                if open then m[key].expires else now + window)
            && (Answered(m, key, max, window, now) == Granted <==> t[key].count <= max)
            && forall k | k in Open(m, now) && k != key :: k in t && t[k] == m[k]
  {
  }

  lemma AddingOne(m: Windows, key: Key, v: LocalLimit)
    ensures |m[key := v]| == if key in m then |m| else |m| + 1
  {
    var t := m[key := v];
    assert |t| == |t.Keys| && |m| == |m.Keys|;
    assert t.Keys == m.Keys + {key};
    if key in m { assert t.Keys == m.Keys; }
  }

  lemma TakingKeepsRoom(m: Windows, key: Key, window: int, now: int)
    requires |m| <= MAX_KEYS
    ensures |Taken(m, key, window, now)| <= MAX_KEYS
  {
    SweptIsSmaller(m, now);
    var r := Room(m, key, now);
    AddingOne(r, key, Counted(r, key, window, now));
  }

  /** The limiter never stores more than 10000 keys. */
  lemma {:induction false} NeverOverfull(m: Windows, rule: Rule, calls: seq<Call>)
    requires |m| <= 10_000
    ensures |Entries(m, rule, calls)| <= 10_000
    decreases |calls|
  {
    hide Taken;
    if calls != [] {
      var c := calls[0];
      TakingKeepsRoom(m, c.key, rule.window(c.key), c.now);
      NeverOverfull(Taken(m, c.key, rule.window(c.key), c.now), rule, calls[1..]);
    }
  }

  // ---------------------------------------------------------------------------------------------
  // Twice the allowance in any window
  // ---------------------------------------------------------------------------------------------

  /** How many calls for `key` with start <= now < start + window(key) were granted. */
  function Grants(rule: Rule, calls: seq<Call>, answers: seq<Answer>, key: Key, start: int): nat
    requires |answers| == |calls|
    decreases |calls|
  {
    if calls == [] then 0
    else
      (if calls[0].key == key && start <= calls[0].now < start + rule.window(key) && answers[0].Granted?
       then 1 else 0) +
      Grants(rule, calls[1..], answers[1..], key, start)
  }

  function Min(a: int, b: int): int {
    if a < b then a else b
  }

  function Allowance(rule: Rule, key: Key): nat {
    if rule.max(key) < 0 then 0 else rule.max(key)
  }

  function TwiceLessOne(max: nat): nat {
    if max == 0 then 0 else 2 * max - 1
  }

  /**
   What can still be granted inside [start, start + window) from a state at time `now`. A window that
   opens inside the interval is the last one there, because the next opens a whole window later.
   */
  function Left(m: Windows, rule: Rule, key: Key, start: int, now: int): int {
    var max := Allowance(rule, key);
    if now >= start + rule.window(key) then 0
    else if now < start then TwiceLessOne(max)
    else if key !in m || now >= m[key].expires then max
    else if m[key].expires - rule.window(key) >= start then max - Min(max, m[key].count)
    else 2 * max - Min(max, m[key].count)
  }

  predicate Counting(m: Windows) {
    forall k | k in m :: m[k].count >= 1
  }

  lemma LeftShrinks(m: Windows, rule: Rule, key: Key, start: int, now: int, later: int)
    requires now <= later && Counting(m)
    ensures 0 <= Left(m, rule, key, start, later) <= Left(m, rule, key, start, now)
  {
  }

  /** One call spends from what is left for its own key, and nothing for any other. */
  lemma CallSpends(m: Windows, rule: Rule, c: Call, key: Key, start: int)
    requires Counting(m)
    ensures var t := Taken(m, c.key, rule.window(c.key), c.now);
      var granted := c.key == key && start <= c.now < start + rule.window(key) &&
                     Answered(m, c.key, rule.max(c.key), rule.window(c.key), c.now).Granted?;
      Counting(t) && (if granted then 1 else 0) + Left(t, rule, key, start, c.now) <= Left(m, rule, key, start, c.now)
  {
  }

  lemma {:induction false} GrantsWithinLeft(m: Windows, rule: Rule, calls: seq<Call>, from: int, key: Key, start: int)
    requires Timely(calls, from) && Counting(m)
    ensures Grants(rule, calls, Answers(m, rule, calls), key, start) <= Left(m, rule, key, start, from)
    decreases |calls|
  {
    if calls == [] {
      LeftShrinks(m, rule, key, start, from, from);
    } else {
      var c := calls[0];
      var t := Taken(m, c.key, rule.window(c.key), c.now);
      LeftShrinks(m, rule, key, start, from, c.now);
      CallSpends(m, rule, c, key, start);
      assert Answers(m, rule, calls)[1..] == Answers(t, rule, calls[1..]);
      GrantsWithinLeft(t, rule, calls[1..], c.now, key, start);
    }
  }

  /**
   A new limiter grants less than twice the allowance in any half-open interval of one window: of two
   windows that meet in the interval, the first was opened by a granted call before it.
   */
  lemma LessThanTwiceTheAllowance(rule: Rule, calls: seq<Call>, from: int, key: Key, start: int)
    requires Timely(calls, from)
    ensures Grants(rule, calls, Answers(map[], rule, calls), key, start) <= TwiceLessOne(Allowance(rule, key))
  {
    GrantsWithinLeft(map[], rule, calls, from, key, start);
    LeftShrinks(map[], rule, key, start, from, from);
  }

  // ---------------------------------------------------------------------------------------------
  // When that many are granted
  // ---------------------------------------------------------------------------------------------

  function Times(c: Call, n: nat): (r: seq<Call>)
    ensures |r| == n
  {
    if n == 0 then [] else [c] + Times(c, n - 1)
  }

  lemma {:induction false} TimelyTimes(c: Call, n: nat, rest: seq<Call>, from: int)
    requires from <= c.now && Timely(rest, c.now)
    ensures Timely(Times(c, n) + rest, from)
  {
    if n == 0 {
      assert [] + rest == rest;
      assert rest != [] ==> from <= rest[0].now;
    } else {
      TimelyTimes(c, n - 1, rest, c.now);
      assert (Times(c, n) + rest)[1..] == Times(c, n - 1) + rest;
    }
  }

  /** One granted call in the interval leaves the rest to be counted from the map it leaves. */
  lemma GrantedFirst(m: Windows, rule: Rule, c: Call, rest: seq<Call>, start: int)
    requires start <= c.now < start + rule.window(c.key)
    requires Answered(m, c.key, rule.max(c.key), rule.window(c.key), c.now).Granted?
    ensures var t := Taken(m, c.key, rule.window(c.key), c.now);
            Grants(rule, [c] + rest, Answers(m, rule, [c] + rest), c.key, start) ==
            1 + Grants(rule, rest, Answers(t, rule, rest), c.key, start)
  {
    hide Answered, Taken;
    var t := Taken(m, c.key, rule.window(c.key), c.now);
    assert ([c] + rest)[1..] == rest;
    assert Answers(m, rule, [c] + rest)[1..] == Answers(t, rule, rest);
  }

  /** Calls at one time of an open window with room for all of them are all granted. */
  lemma {:induction false} AllGranted(m: Windows, rule: Rule, c: Call, n: nat, rest: seq<Call>, start: int)
    requires c.key in m && c.now < m[c.key].expires && m[c.key].count + n <= rule.max(c.key)
    requires start <= c.now < start + rule.window(c.key)
    ensures var calls := Times(c, n) + rest;
            var t := m[c.key := m[c.key].(count := m[c.key].count + n)];
            Grants(rule, calls, Answers(m, rule, calls), c.key, start) ==
            n + Grants(rule, rest, Answers(t, rule, rest), c.key, start)
  {
    hide Answers, Grants;
    if n == 0 {
      assert [] + rest == rest;
      assert m[c.key := m[c.key]] == m;
    } else {
      var t := Taken(m, c.key, rule.window(c.key), c.now);
      assert t == m[c.key := m[c.key].(count := m[c.key].count + 1)];
      var later := Times(c, n - 1) + rest;
      assert Times(c, n) + rest == [c] + later;
      GrantedFirst(m, rule, c, later, start);
      AllGranted(t, rule, c, n - 1, rest, start);
      assert t[c.key := t[c.key].(count := t[c.key].count + (n - 1))] ==
             m[c.key := m[c.key].(count := m[c.key].count + n)];
    }
  }

  /** A call that opens a window, and the rest of its allowance at the same time. */
  lemma OpeningGranted(m: Windows, rule: Rule, c: Call, rest: seq<Call>, start: int)
    requires |m| < MAX_KEYS && (c.key in m ==> m[c.key].expires <= c.now)
    requires rule.max(c.key) >= 1 && start <= c.now < start + rule.window(c.key)
    ensures var max := rule.max(c.key);
            var calls := Times(c, max) + rest;
            var t := m[c.key := LocalLimit(max, c.now + rule.window(c.key))];
            Grants(rule, calls, Answers(m, rule, calls), c.key, start) ==
            max + Grants(rule, rest, Answers(t, rule, rest), c.key, start)
  {
    hide Answers, Grants;
    var max := rule.max(c.key);
    var t := Taken(m, c.key, rule.window(c.key), c.now);
    assert t == m[c.key := LocalLimit(1, c.now + rule.window(c.key))];
    var later := Times(c, max - 1) + rest;
    assert Times(c, max) + rest == [c] + later;
    GrantedFirst(m, rule, c, later, start);
    AllGranted(t, rule, c, max - 1, rest, start);
    assert t[c.key := t[c.key].(count := max)] == m[c.key := LocalLimit(max, c.now + rule.window(c.key))];
  }

  /**
   A window opened just before the interval and filled in it, and the next one filled as soon as it may be.
   */
  function Busiest(rule: Rule, key: Key): seq<Call>
    requires rule.max(key) >= 1
  {
    [Call(key, 0)] + (Times(Call(key, 1), rule.max(key) - 1) + Times(Call(key, rule.window(key)), rule.max(key)))
  }

  /** The bound is reached, for every key whose allowance is not zero and whose window is not a single instant. */
  lemma BoundIsReached(rule: Rule, key: Key)
    requires rule.max(key) >= 1 && rule.window(key) >= 2
    ensures var calls := Busiest(rule, key);
            && Timely(calls, 0)
            && Grants(rule, calls, Answers(map[], rule, calls), key, 1) == TwiceLessOne(Allowance(rule, key))
  {
    var max, window := rule.max(key), rule.window(key);
    var c0, c1, c2 := Call(key, 0), Call(key, 1), Call(key, window);
    var second := Times(c2, max);
    var first := Times(c1, max - 1) + second;
    var calls := [c0] + first;
    assert second + [] == second;
    TimelyTimes(c2, max, [], 1);
    TimelyTimes(c1, max - 1, second, 0);
    assert calls[1..] == first;
    var m1: Windows := map[key := LocalLimit(1, window)];
    var m2 := m1[key := LocalLimit(max, window)];
    assert Taken(map[], key, window, 0) == m1;
    assert Answers(map[], rule, calls)[1..] == Answers(m1, rule, first);
    AllGranted(m1, rule, c1, max - 1, second, 1);
    assert m1[key := m1[key].(count := 1 + (max - 1))] == m2;
    AddingOne(map[], key, LocalLimit(1, window));
    AddingOne(m1, key, LocalLimit(max, window));
    OpeningGranted(m2, rule, c2, [], 1);
  }

  /** With a window of a single instant no interval meets two windows, and the allowance itself is the bound. */
  lemma {:induction false} InstantWindowsDoNotMeet(m: Windows, rule: Rule, calls: seq<Call>,
                                                 from: int, key: Key, start: int)
    requires Timely(calls, from) && Counting(m) && rule.window(key) <= 1
    ensures Grants(rule, calls, Answers(m, rule, calls), key, start) <= Allowance(rule, key)
    decreases |calls|
  {
    if calls != [] {
      var c := calls[0];
      if c.now < start {
        var t := Taken(m, c.key, rule.window(c.key), c.now);
        assert Answers(m, rule, calls)[1..] == Answers(t, rule, calls[1..]);
        InstantWindowsDoNotMeet(t, rule, calls[1..], c.now, key, start);
      } else {
        GrantsWithinLeft(m, rule, calls, c.now, key, start);
      }
    }
  }
}
