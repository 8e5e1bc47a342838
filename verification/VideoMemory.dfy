/**
 The in-process video cache `videoMemory` (backend/resilience.go): a map and a doubly linked list kept
 in step under one mutex, proved to be a least-recently-used cache on a plain sequence.
 Times are in milliseconds; every method call is one critical section.
 */
module VideoMemory {
  import opened Options

  const CAPACITY: nat := 512
  const FRESH_FOR: int := 1_000
  const STALE_FOR: int := 60_000
  const MISSING_FOR: int := 1_000

  // ---------------------------------------------------------------------------------------------
  // The specification: one sequence, most recently used first
  // ---------------------------------------------------------------------------------------------

  datatype LocalVideo<V> = LocalVideo(id: nat, value: V, freshUntil: int, staleUntil: int)

  function Find<V>(s: seq<LocalVideo<V>>, id: nat): (r: Option<LocalVideo<V>>)
    ensures r.Some? ==> r.value in s && r.value.id == id
    ensures r.None? ==> forall e | e in s :: e.id != id
  {
    if s == [] then None else if s[0].id == id then Some(s[0]) else Find(s[1..], id)
  }

  predicate Distinct<V>(s: seq<LocalVideo<V>>) {
    s == [] || (Find(s[1..], s[0].id).None? && Distinct(s[1..]))
  }

  function Without<V>(s: seq<LocalVideo<V>>, id: nat): (r: seq<LocalVideo<V>>)
    ensures forall e | e in r :: e in s && e.id != id
    ensures forall e | e in s && e.id != id :: e in r
    ensures |r| <= |s|
  {
    if s == [] then [] else if s[0].id == id then Without(s[1..], id) else [s[0]] + Without(s[1..], id)
  }

  function Until<V>(e: LocalVideo<V>, stale: bool): int {
    if stale then e.staleUntil else e.freshUntil
  }

  /** A hit moves the video to the front; a video past its stale time is dropped. */
  function Got<V>(s: seq<LocalVideo<V>>, id: nat, stale: bool, now: int, later: int): seq<LocalVideo<V>> {
    match Find(s, id)
    case None => s
    case Some(e) =>
      if now < Until(e, stale) then [e] + Without(s, id)
      else if later > e.staleUntil then Without(s, id)
      else s
  }

  function Hit<V>(s: seq<LocalVideo<V>>, id: nat, stale: bool, now: int): Option<V> {
    match Find(s, id)
    case Some(e) => if now < Until(e, stale) then Some(e.value) else None
    case None => None
  }

  /** A put goes to the front, and the sequence is cut to the capacity at the back. */
  function Stored<V>(s: seq<LocalVideo<V>>, id: nat, value: V, missing: bool, now: int): seq<LocalVideo<V>> {
    Trimmed([LocalVideo(id, value, now + FRESH_FOR, StaleAt(missing, now))] + Without(s, id))
  }

  function StaleAt(missing: bool, now: int): int {
    if missing then now + MISSING_FOR else now + STALE_FOR
  }

  function Trimmed<V>(s: seq<LocalVideo<V>>): seq<LocalVideo<V>> {
    if |s| > CAPACITY then CutBack(s) else s
  }

  function CutBack<V>(s: seq<LocalVideo<V>>): seq<LocalVideo<V>>
    requires s != []
  {
    Without(s, s[|s| - 1].id)
  }

  /** Removing the id at the back cuts exactly the last element off. */
  lemma {:induction false} WithoutLast<V>(s: seq<LocalVideo<V>>)
    requires s != [] && Distinct(s)
    ensures CutBack(s) == s[..|s| - 1]
  {
    var rest := s[1..];
    if rest == [] {
    } else {
      assert rest[|rest| - 1] == s[|s| - 1] && rest[|rest| - 1] in rest;
      WithoutLast(rest);
      assert s[..|s| - 1] == [s[0]] + rest[..|rest| - 1];
    }
  }

  lemma {:induction false} WithoutDistinct<V>(s: seq<LocalVideo<V>>, id: nat)
    requires Distinct(s)
    ensures Distinct(Without(s, id)) && Find(Without(s, id), id).None?
    ensures |Without(s, id)| == if Find(s, id).Some? then |s| - 1 else |s|
  {
    if s != [] {
      WithoutDistinct(s[1..], id);
      if s[0].id == id {
        WithoutAbsent(s[1..], id);
      } else {
        assert Find(Without(s[1..], id), s[0].id).None?;
      }
    }
  }

  lemma {:induction false} WithoutAbsent<V>(s: seq<LocalVideo<V>>, id: nat)
    requires Find(s, id).None?
    ensures Without(s, id) == s
  {
    if s != [] {
      WithoutAbsent(s[1..], id);
    }
  }

  // ---------------------------------------------------------------------------------------------
  // The implementation: a map of elements and a list of elements
  // ---------------------------------------------------------------------------------------------

  /** A list element; its value is set when it is pushed and never changes. */
  class Element<V> {
    const entry: LocalVideo<V>

    constructor (entry: LocalVideo<V>)
      ensures this.entry == entry
    {
      this.entry := entry;
    }
  }

  /** The list with one element unlinked. */
  function Unlinked<V>(order: seq<Element<V>>, e: Element<V>): (r: seq<Element<V>>)
    ensures forall x | x in r :: x in order && x != e
    ensures forall x | x in order && x != e :: x in r
  {
    if order == [] then [] else if order[0] == e then Unlinked(order[1..], e) else [order[0]] + Unlinked(order[1..], e)
  }

  function Entries<V>(order: seq<Element<V>>): (r: seq<LocalVideo<V>>)
    ensures |r| == |order|
    ensures forall e | e in order :: e.entry in r
  {
    if order == [] then [] else [order[0].entry] + Entries(order[1..])
  }

  lemma {:induction false} UnlinkedEntries<V>(order: seq<Element<V>>, e: Element<V>)
    requires Distinct(Entries(order)) && e in order
    ensures Entries(Unlinked(order, e)) == Without(Entries(order), e.entry.id)
    ensures Find(Entries(order), e.entry.id) == Some(e.entry)
  {
    var rest := order[1..];
    assert Entries(order)[1..] == Entries(rest);
    if order[0] == e {
      assert e !in rest;
      UnlinkedAbsent(rest, e);
      WithoutAbsent(Entries(rest), e.entry.id);
    } else {
      assert e.entry in Entries(rest);
      UnlinkedEntries(rest, e);
    }
  }

  lemma {:induction false} EntriesAt<V>(order: seq<Element<V>>, i: nat)
    requires i < |order|
    ensures Entries(order)[i] == order[i].entry
  {
    if i > 0 {
      EntriesAt(order[1..], i - 1);
    }
  }

  lemma {:induction false} UnlinkedAbsent<V>(order: seq<Element<V>>, e: Element<V>)
    requires e !in order
    ensures Unlinked(order, e) == order
  {
    if order != [] {
      UnlinkedAbsent(order[1..], e);
    }
  }

  /** Map and list hold the same elements, each id exactly once. */
  ghost predicate Linked<V>(entries: map<nat, Element<V>>, order: seq<Element<V>>) {
    && Distinct(Entries(order))
    && (forall e | e in order :: e.entry.id in entries && entries[e.entry.id] == e)
    && (forall id | id in entries :: entries[id] in order && entries[id].entry.id == id)
  }

  lemma {:induction false} FindElement<V>(order: seq<Element<V>>, id: nat)
    ensures Find(Entries(order), id).Some? ==> exists e | e in order :: e.entry == Find(Entries(order), id).value
  {
    if order != [] {
      assert Entries(order)[1..] == Entries(order[1..]);
      if order[0].entry.id != id {
        FindElement(order[1..], id);
      } else {
        assert order[0] in order;
      }
    }
  }

  /** Removing an id from both sides, whether or not it was there. */
  lemma UnlinkKeeps<V>(entries: map<nat, Element<V>>, order: seq<Element<V>>, id: nat)
    requires Linked(entries, order)
    ensures id in entries ==> Linked(entries - {id}, Unlinked(order, entries[id]))
    ensures id in entries ==> Entries(Unlinked(order, entries[id])) == Without(Entries(order), id)
    ensures id in entries ==> Find(Entries(order), id) == Some(entries[id].entry)
    ensures id in entries ==> |Unlinked(order, entries[id])| == |order| - 1
    ensures id !in entries ==> Without(Entries(order), id) == Entries(order) && Find(Entries(order), id).None?
  {
    if id in entries {
      UnlinkedEntries(order, entries[id]);
      WithoutDistinct(Entries(order), id);
    } else {
      FindElement(order, id);
      WithoutAbsent(Entries(order), id);
    }
  }

  /** Pushing a new id to the front. */
  lemma PushKeeps<V>(entries: map<nat, Element<V>>, order: seq<Element<V>>, e: Element<V>)
    requires Linked(entries, order) && e.entry.id !in entries
    ensures Linked(entries[e.entry.id := e], [e] + order)
    ensures Entries([e] + order) == [e.entry] + Entries(order)
  {
    assert ([e] + order)[1..] == order;
    assert Entries([e] + order)[1..] == Entries(order);
    FindElement(order, e.entry.id);
  }

  /** Moving an element to the front leaves the map alone. */
  lemma MoveKeeps<V>(entries: map<nat, Element<V>>, order: seq<Element<V>>, e: Element<V>)
    requires Linked(entries, order) && e in order
    ensures Linked(entries, [e] + Unlinked(order, e))
    ensures Entries([e] + Unlinked(order, e)) == [e.entry] + Without(Entries(order), e.entry.id)
    ensures |[e] + Unlinked(order, e)| == |order|
  {
    var moved := [e] + Unlinked(order, e);
    UnlinkKeeps(entries, order, e.entry.id);
    PushKeeps(entries - {e.entry.id}, Unlinked(order, e), e);
    assert forall x :: x in moved <==> x in order;
  }

  class VideoMemory<V> {
    var entries: map<nat, Element<V>>
    var order: seq<Element<V>>
    var epoch: nat

    ghost predicate Valid()
      reads this
    {
      Linked(entries, order) && |order| <= CAPACITY
    }

    ghost function Contents(): seq<LocalVideo<V>>
      reads this
    {
      Entries(order)
    }

    constructor ()
      ensures Valid() && Contents() == [] && epoch == 0
    {
      entries, order, epoch := map[], [], 0;
    }

    /** `later` is the second reading of the clock, taken only when the entry is past `until`. */
    method Get(id: nat, stale: bool, now: int, later: int) returns (r: Option<V>)
      requires Valid()
      modifies this
      ensures Valid() && epoch == old(epoch)
      ensures Contents() == Got(old(Contents()), id, stale, now, later)
      ensures r == Hit(old(Contents()), id, stale, now)
    {
      r := None;
      UnlinkKeeps(entries, order, id);
      if id in entries {
        var e := entries[id];
        if now < Until(e.entry, stale) {
          MoveKeeps(entries, order, e);
          order := [e] + Unlinked(order, e);
          r := Some(e.entry.value);
        } else if later > e.entry.staleUntil {
          order := Unlinked(order, e);
          entries := entries - {id};
        }
      }
    }

    /** Unlinks an id from the list and the map, if it is there. */
    method Delete(id: nat)
      requires Linked(entries, order)
      modifies this`entries, this`order
      ensures Linked(entries, order) && id !in entries
      ensures Contents() == Without(old(Contents()), id)
      ensures |order| <= old(|order|)
    {
      UnlinkKeeps(entries, order, id);
      if id in entries {
        order := Unlinked(order, entries[id]);
        entries := entries - {id};
      }
    }

    method PushFront(entry: LocalVideo<V>)
      requires Linked(entries, order) && entry.id !in entries
      modifies this`entries, this`order
      ensures Linked(entries, order)
      ensures Contents() == [entry] + old(Contents()) && |order| == old(|order|) + 1
    {
      var e := new Element(entry);
      PushKeeps(entries, order, e);
      order := [e] + order;
      entries := entries[entry.id := e];
    }

    /** Removes the element at the back when the list is over the capacity. */
    method Trim()
      requires Linked(entries, order) && |order| <= CAPACITY + 1
      modifies this`entries, this`order
      ensures Valid()
      ensures Contents() == Trimmed(old(Contents()))
    {
      if |order| > CAPACITY {
        var back := order[|order| - 1];
        EntriesAt(order, |order| - 1);
        WithoutDistinct(Contents(), back.entry.id);
        UnlinkKeeps(entries, order, back.entry.id);
        Delete(back.entry.id);
      }
    }

    /** A value whose generation is not the current epoch is dropped. */
    method Put(id: nat, value: V, missing: bool, generation: nat, now: int)
      requires Valid()
      modifies this
      ensures Valid() && epoch == old(epoch)
      ensures Contents() ==
            if generation != epoch then old(Contents()) else Stored(old(Contents()), id, value, missing, now)
    {
      if epoch != generation {
        return;
      }
      Refill(LocalVideo(id, value, now + FRESH_FOR, StaleAt(missing, now)));
    }

    /** Takes the old element out, pushes the new one and evicts at the back if need be. */
    method Refill(entry: LocalVideo<V>)
      requires Valid()
      modifies this`entries, this`order
      ensures Valid()
      ensures Contents() == Trimmed([entry] + Without(old(Contents()), entry.id))
    {
      Delete(entry.id);
      PushFront(entry);
      Trim();
    }

    method Invalidate(id: nat)
      requires Valid()
      modifies this
      ensures Valid() && epoch == old(epoch) + 1
      ensures Contents() == Without(old(Contents()), id)
    {
      epoch := epoch + 1;
      Delete(id);
    }
  }

  // ---------------------------------------------------------------------------------------------
  // The sequence is in order of recency
  // ---------------------------------------------------------------------------------------------

  datatype Op<V> =
    | OpGet(id: nat, stale: bool, now: int, later: int)
    | OpPut(id: nat, value: V, missing: bool, generation: nat, now: int)
    | OpInvalidate(id: nat)

  /** An accepted put. */
  datatype Put<V> = Put(value: V, missing: bool, at: int)

  /**
   The specification state; `log` records, in order, every id that was put or hit, and `puts` the last
   accepted put of every id.
   */
  datatype Memory<V> = Memory(videos: seq<LocalVideo<V>>, epoch: nat, log: seq<nat>, puts: map<nat, Put<V>>)

  function Apply<V>(m: Memory<V>, op: Op<V>): Memory<V> {
    match op
    case OpGet(id, stale, now, later) =>
      m.(videos := Got(m.videos, id, stale, now, later),
         log := if Hit(m.videos, id, stale, now).Some? then m.log + [id] else m.log)
    case OpPut(id, value, missing, generation, now) =>
      if generation != m.epoch then m
      else m.(videos := Stored(m.videos, id, value, missing, now), log := m.log + [id],
              puts := m.puts[id := Put(value, missing, now)])
    case OpInvalidate(id) => m.(videos := Without(m.videos, id), epoch := m.epoch + 1)
  }

  function Run<V>(m: Memory<V>, ops: seq<Op<V>>): Memory<V>
    decreases |ops|
  {
    if ops == [] then m else Run(Apply(m, ops[0]), ops[1..])
  }

  function LastTouch(log: seq<nat>, id: nat): int {
    if log == [] then -1 else if log[|log| - 1] == id then |log| - 1 else LastTouch(log[..|log| - 1], id)
  }

  /** Every video was touched, each one later than the next, the first before `bound`. */
  predicate Recency<V>(s: seq<LocalVideo<V>>, log: seq<nat>, bound: int) {
    s == [] || (0 <= LastTouch(log, s[0].id) < bound && Recency(s[1..], log, LastTouch(log, s[0].id)))
  }

  ghost predicate Inv<V>(m: Memory<V>) {
    Distinct(m.videos) && |m.videos| <= CAPACITY && Recency(m.videos, m.log, |m.log|)
  }

  lemma {:induction false} WithoutRecency<V>(s: seq<LocalVideo<V>>, id: nat, log: seq<nat>, bound: int, more: int)
    requires Recency(s, log, bound) && bound <= more
    ensures Recency(Without(s, id), log, more)
  {
    if s != [] {
      if s[0].id == id {
        WithoutRecency(s[1..], id, log, LastTouch(log, s[0].id), more);
      } else {
        WithoutRecency(s[1..], id, log, LastTouch(log, s[0].id), LastTouch(log, s[0].id));
        assert Without(s, id)[1..] == Without(s[1..], id);
      }
    }
  }

  lemma {:induction false} TouchElsewhere<V>(s: seq<LocalVideo<V>>, id: nat, log: seq<nat>, bound: int)
    requires Recency(s, log, bound) && Find(s, id).None?
    ensures Recency(s, log + [id], bound)
  {
    if s != [] {
      assert (log + [id])[..|log|] == log;
      TouchElsewhere(s[1..], id, log, LastTouch(log, s[0].id));
    }
  }

  /** Touching an id and putting it in front keeps the order. */
  lemma FrontIsMostRecent<V>(s: seq<LocalVideo<V>>, e: LocalVideo<V>, log: seq<nat>)
    requires Recency(s, log, |log|) && Distinct(s)
    ensures Recency([e] + Without(s, e.id), log + [e.id], |log| + 1)
    ensures Distinct([e] + Without(s, e.id))
  {
    WithoutRecency(s, e.id, log, |log|, |log|);
    WithoutDistinct(s, e.id);
    TouchElsewhere(Without(s, e.id), e.id, log, |log|);
    assert ([e] + Without(s, e.id))[1..] == Without(s, e.id);
    assert LastTouch(log + [e.id], e.id) == |log|;
  }

  lemma {:induction false} LastIsLeastRecent<V>(s: seq<LocalVideo<V>>, log: seq<nat>, bound: int)
    requires s != [] && Recency(s, log, bound)
    ensures forall e | e in s[..|s| - 1] :: LastTouch(log, s[|s| - 1].id) < LastTouch(log, e.id)
    ensures LastTouch(log, s[|s| - 1].id) < bound
  {
    if |s| > 1 {
      LastIsLeastRecent(s[1..], log, LastTouch(log, s[0].id));
      assert s[..|s| - 1] == [s[0]] + s[1..][..|s| - 2];
    }
  }

  lemma TrimmedKeeps<V>(full: seq<LocalVideo<V>>, log: seq<nat>, bound: int)
    requires Distinct(full) && Recency(full, log, bound) && 0 < |full| <= CAPACITY + 1
    ensures Distinct(Trimmed(full)) && |Trimmed(full)| <= CAPACITY && Recency(Trimmed(full), log, bound)
  {
    if |full| > CAPACITY {
      var id := full[|full| - 1].id;
      WithoutLast(full);
      WithoutDistinct(full, id);
      WithoutRecency(full, id, log, bound, bound);
    }
  }

  /** Trimming drops nothing but the least recent video of a full cache. */
  lemma TrimmedDrops<V>(full: seq<LocalVideo<V>>, log: seq<nat>, bound: int, gone: LocalVideo<V>)
    requires Distinct(full) && Recency(full, log, bound) && 0 < |full| <= CAPACITY + 1
    requires gone in full && gone !in Trimmed(full)
    ensures |Trimmed(full)| == CAPACITY
    ensures forall kept | kept in Trimmed(full) :: LastTouch(log, gone.id) < LastTouch(log, kept.id)
  {
    var n := |full| - 1;
    WithoutLast(full);
    LastIsLeastRecent(full, log, bound);
    assert full == full[..n] + [full[n]];
    assert gone == full[n];
  }

  lemma PutKeeps<V>(m: Memory<V>, op: Op<V>)
    requires Inv(m) && op.OpPut? && op.generation == m.epoch
    ensures Inv(Apply(m, op))
    ensures forall gone | gone in m.videos && gone.id != op.id && gone !in Apply(m, op).videos ::
      |Apply(m, op).videos| == CAPACITY &&
      forall kept | kept in Apply(m, op).videos ::
        LastTouch(m.log + [op.id], gone.id) < LastTouch(m.log + [op.id], kept.id)
  {
    var e := LocalVideo(op.id, op.value, op.now + FRESH_FOR, StaleAt(op.missing, op.now));
    FrontIsMostRecent(m.videos, e, m.log);
    var full := [e] + Without(m.videos, op.id);
    TrimmedKeeps(full, m.log + [op.id], |m.log| + 1);
    forall gone | gone in m.videos && gone.id != op.id && gone !in Apply(m, op).videos
      ensures |Trimmed(full)| == CAPACITY
      ensures forall kept | kept in Trimmed(full) ::
                LastTouch(m.log + [op.id], gone.id) < LastTouch(m.log + [op.id], kept.id)
    {
      TrimmedDrops(full, m.log + [op.id], |m.log| + 1, gone);
    }
  }

  lemma GetKeeps<V>(m: Memory<V>, op: Op<V>)
    requires Inv(m) && op.OpGet?
    ensures Inv(Apply(m, op))
  {
    WithoutRecency(m.videos, op.id, m.log, |m.log|, |m.log|);
    WithoutDistinct(m.videos, op.id);
    if Hit(m.videos, op.id, op.stale, op.now).Some? {
      FrontIsMostRecent(m.videos, Find(m.videos, op.id).value, m.log);
    }
  }

  lemma ApplyKeeps<V>(m: Memory<V>, op: Op<V>)
    requires Inv(m)
    ensures Inv(Apply(m, op))
  {
    match op {
      case OpGet(_, _, _, _) => GetKeeps(m, op);
      case OpPut(_, _, _, generation, _) => if generation == m.epoch { PutKeeps(m, op); }
      case OpInvalidate(id) =>
        WithoutRecency(m.videos, id, m.log, |m.log|, |m.log|);
        WithoutDistinct(m.videos, id);
    }
  }

  lemma {:induction false} RunKeeps<V>(m: Memory<V>, ops: seq<Op<V>>)
    requires Inv(m)
    ensures Inv(Run(m, ops))
    decreases |ops|
  {
    if ops != [] {
      ApplyKeeps(m, ops[0]);
      RunKeeps(Apply(m, ops[0]), ops[1..]);
    }
  }

  /**
   In every reachable state the videos are distinct, at most 512, and stand in order of their last put
   or hit. A put that makes another video disappear finds the cache full, and that video is the one whose
   last put or hit lies furthest back.
   */
  lemma OverflowEvictsLeastRecent<V>(ops: seq<Op<V>>, op: Op<V>)
    ensures var m := Run<V>(Memory([], 0, [], map[]), ops);
      Distinct(m.videos) && |m.videos| <= 512 && Recency(m.videos, m.log, |m.log|)
    ensures var m := Run<V>(Memory([], 0, [], map[]), ops);
      var t := Apply(m, op);
      op.OpPut? ==> forall gone | gone in m.videos && gone.id != op.id && gone !in t.videos ::
        |t.videos| == 512 &&
        forall kept | kept in t.videos :: LastTouch(t.log, gone.id) < LastTouch(t.log, kept.id)
  {
    var m := Run<V>(Memory([], 0, [], map[]), ops);
    RunKeeps<V>(Memory([], 0, [], map[]), ops);
    if op.OpPut? && op.generation == m.epoch {
      PutKeeps(m, op);
    }
  }

  // ---------------------------------------------------------------------------------------------
  // When a lookup hits
  // ---------------------------------------------------------------------------------------------

  ghost predicate Held<V>(m: Memory<V>, id: nat) {
    exists e | e in m.videos :: e.id == id
  }

  /** How long after it was put a video can be looked up: a second, or a minute for a stale one that exists. */
  function Lifetime<V>(put: Put<V>, stale: bool): int {
    if stale && !put.missing then 60_000 else 1_000
  }

  /** Every video held is as its last put left it. */
  ghost predicate AsPut<V>(m: Memory<V>) {
    forall e | e in m.videos ::
      && e.id in m.puts && e.value == m.puts[e.id].value
      && e.freshUntil == m.puts[e.id].at + Lifetime(m.puts[e.id], false)
      && e.staleUntil == m.puts[e.id].at + Lifetime(m.puts[e.id], true)
  }

  lemma TrimmedMembers<V>(s: seq<LocalVideo<V>>)
    ensures forall e | e in Trimmed(s) :: e in s
  {
  }

  lemma ApplyKeepsAsPut<V>(m: Memory<V>, op: Op<V>)
    requires AsPut(m)
    ensures AsPut(Apply(m, op))
  {
    if op.OpPut? && op.generation == m.epoch {
      var e := LocalVideo(op.id, op.value, op.now + FRESH_FOR, StaleAt(op.missing, op.now));
      TrimmedMembers([e] + Without(m.videos, op.id));
    }
  }

  lemma {:induction false} RunKeepsAsPut<V>(m: Memory<V>, ops: seq<Op<V>>)
    requires AsPut(m)
    ensures AsPut(Run(m, ops))
    decreases |ops|
  {
    hide AsPut, Apply;
    if ops != [] {
      ApplyKeepsAsPut(m, ops[0]);
      RunKeepsAsPut(Apply(m, ops[0]), ops[1..]);
    }
  }

  /**
   In every reachable state a lookup hits exactly when the id is held and its last accepted put lies less
   than a second back, or for a stale lookup less than a minute unless the video is missing; and it answers
   the value of that put.
   */
  lemma HitsIff<V>(ops: seq<Op<V>>, id: nat, stale: bool, now: int)
    ensures var m := Run<V>(Memory([], 0, [], map[]), ops);
            && (Held(m, id) ==> id in m.puts)
            && Hit(m.videos, id, stale, now) ==
                 if Held(m, id) && now - m.puts[id].at < (if stale && !m.puts[id].missing then 60_000 else 1_000)
                 then Some(m.puts[id].value) else None
  {
    RunKeepsAsPut<V>(Memory([], 0, [], map[]), ops);
    var m := Run<V>(Memory([], 0, [], map[]), ops);
    if Find(m.videos, id).Some? {
      assert Find(m.videos, id).value in m.videos;
    }
  }

  /** What an operation lets go: exactly which ids stop being held. */
  lemma LetGoIff<V>(ops: seq<Op<V>>, op: Op<V>, id: nat)
    requires Held(Run<V>(Memory([], 0, [], map[]), ops), id)
    ensures var m := Run<V>(Memory([], 0, [], map[]), ops);
            && id in m.puts
            && (op.OpInvalidate? ==> (!Held(Apply(m, op), id) <==> op.id == id))
            && (op.OpGet? ==>
                  var age := if m.puts[id].missing then 1_000 else 60_000;
                  !Held(Apply(m, op), id) <==>
                  op.id == id && Hit(m.videos, id, op.stale, op.now).None? && op.later - m.puts[id].at > age)
            && (op.OpPut? && (op.generation != m.epoch || op.id == id) ==> Held(Apply(m, op), id))
  {
    RunKeeps<V>(Memory([], 0, [], map[]), ops);
    RunKeepsAsPut<V>(Memory([], 0, [], map[]), ops);
    var m := Run<V>(Memory([], 0, [], map[]), ops);
    var e :| e in m.videos && e.id == id;
    FindHeld(m.videos, e);
    match op {
      case OpGet(i, stale, now, later) => if i != id { StillHeld(m, i, e); }
      case OpInvalidate(i) => if i != id { StillHeld(m, i, e); }
      case OpPut(i, value, missing, generation, now) =>
        if generation == m.epoch && i == id { PutIsHeld(m, op); }
    }
  }

  lemma {:induction false} FindHeld<V>(s: seq<LocalVideo<V>>, e: LocalVideo<V>)
    requires Distinct(s) && e in s
    ensures Find(s, e.id) == Some(e)
  {
    if s[0] != e {
      assert e in s[1..];
      FindHeld(s[1..], e);
    }
  }

  lemma StillHeld<V>(m: Memory<V>, i: nat, e: LocalVideo<V>)
    requires e in m.videos && e.id != i
    ensures e in Without(m.videos, i)
    ensures forall stale, now, later :: e in Got(m.videos, i, stale, now, later)
  {
  }

  /** An accepted put is held, in front. */
  lemma PutIsHeld<V>(m: Memory<V>, op: Op<V>)
    requires Inv(m) && op.OpPut? && op.generation == m.epoch
    ensures var t := Apply(m, op); t.videos != [] && t.videos[0].id == op.id && Held(t, op.id)
  {
    var e := LocalVideo(op.id, op.value, op.now + FRESH_FOR, StaleAt(op.missing, op.now));
    var full := [e] + Without(m.videos, op.id);
    FrontIsMostRecent(m.videos, e, m.log);
    if |full| > CAPACITY {
      WithoutLast(full);
      assert full[..|full| - 1][0] == e;
    }
    assert Apply(m, op).videos[0] == e;
  }
}
