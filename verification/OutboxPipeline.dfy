/**
 The outbox, its publishers, the broker queues and the consumers (backend/worker.go).

 Any number of publisher and consumer sessions run against one database and one durable broker. A
 session may die at any step; what it had sent may still reach the broker, and what it had not
 acknowledged returns to the queue. Every atomic action is a `Step`; a step that is not enabled changes
 nothing. Queues are modelled as bags, so any order of delivery is covered.
 */
module OutboxPipeline {
  import opened Options

  type EventId = nat

  const BATCH_SIZE: nat := 128
  const PREFETCH: nat := 4
  const MAX_ATTEMPT: nat := 3

  /** A message; `body` is None when it cannot be parsed, `attempt` is its header, 0 when absent. */
  datatype Message = Message(body: Option<EventId>, attempt: nat)

  // ---------------------------------------------------------------------------------------------
  // State
  // ---------------------------------------------------------------------------------------------

  /** What the broker did with a publication; an unroutable one is returned and then confirmed all the same. */
  datatype Fate = Routed | Unroutable | Refused

  datatype Frame = ReturnFrame(tag: nat) | ConfirmFrame(tag: nat, ack: bool)

  datatype PublisherPhase =
    | Polling
    | Publishing(batch: seq<EventId>, first: nat, count: nat)
    | Confirming(batch: seq<EventId>, first: nat, count: nat)
    | Marking(batch: seq<EventId>, first: nat)
    | Closed

  /**
   A publisher session. `sent[tag]` is the event published under that delivery tag, `unhandled` the tags
   the broker has not dealt with, `fates` those it has. Frames travel in order from `wire` into the two
   channels the code selects on: `confirms` and `returned` (only their number matters there).
   */
  datatype Publisher = Publisher(
    phase: PublisherPhase,
    sent: seq<EventId>,
    unhandled: set<nat>,
    fates: map<nat, Fate>,
    wire: seq<Frame>,
    confirms: seq<Frame>,
    returned: nat)

  datatype ConsumerPhase =
    | Idle
    | Handling(message: Message)
    | Relaying(message: Message)
    | Acking(message: Message)
    | Failing(message: Message)
    | AwaitingConfirm(message: Message, tag: nat)
    | Requeueing(message: Message)
    | Gone

  /**
   A consumer session; `retries[tag]` is the retry published under that tag, and `fates` is what has become
   of those. Retries are published as mandatory, but the session does not listen for returns.
   */
  datatype Consumer = Consumer(
    phase: ConsumerPhase,
    prefetched: seq<Message>,
    retries: seq<Message>,
    unhandled: set<nat>,
    fates: map<nat, Fate>,
    confirms: seq<(nat, bool)>)

  datatype State = State(
    published: map<EventId, bool>,  // the outbox rows and whether published_at is set
    markers: set<EventId>,          // the processed_events rows
    handled: set<EventId>,          // events for which processEvent has returned nil
    events: multiset<Message>,
    retry: multiset<Message>,
    dead: multiset<Message>,
    publishers: map<nat, Publisher>,
    consumers: map<nat, Consumer>)

  /** publishOutbox and publishOutboxBatch, and the broker on the publisher's channel (Handle, Transmit). */
  datatype PublisherStep =
    | Fetch(batch: seq<EventId>)
    | Publish
    | TakeReturn
    | TakeConfirm
    | CheckReturns
    | MarkPublished
    | ClosePublisher
    | Handle(tag: nat, fate: Fate)
    | Transmit

  /** consumeEvents and processEvent, and the broker on the consumer's channel (Deliver, HandleRetry). */
  datatype ConsumerStep =
    | Deliver(message: Message)
    | Take
    | CommitMarker(ok: bool)
    | Relay(ok: bool)
    | Acknowledge
    | Recover(sent: bool)
    | TakeRetryConfirm
    | GiveUpConfirm
    | Requeue
    | CloseConsumer
    | HandleRetry(tag: nat, fate: Fate)

  datatype Step =
    | CommitEvent(id: EventId)
    | Foreign(message: Message)
    | ExpireRetry(message: Message)
    | OpenPublisher(p: nat)
    | OpenConsumer(c: nat)
    | PublisherDoes(p: nat, doing: PublisherStep)
    | ConsumerDoes(c: nat, action: ConsumerStep)

  const INIT := State(map[], {}, {}, multiset{}, multiset{}, multiset{}, map[], map[])

  function SetPublisher(s: State, p: nat, q: Publisher): State {
    s.(publishers := s.publishers[p := q])
  }

  function SetConsumer(s: State, c: nat, d: Consumer): State {
    s.(consumers := s.consumers[c := d])
  }

  // ---------------------------------------------------------------------------------------------
  // Publishing
  // ---------------------------------------------------------------------------------------------

  predicate Unpublished(s: State, batch: seq<EventId>) {
    forall id | id in batch :: id in s.published && !s.published[id]
  }

  function Published(s: State, batch: seq<EventId>): map<EventId, bool> {
    map id | id in s.published :: s.published[id] || id in batch
  }

  /** One step of a publisher session; MarkPublished also changes the rows. */
  function NextPublisher(s: State, q: Publisher, step: PublisherStep): Publisher {
    match step
    case Fetch(batch) =>
      if q.phase.Polling? && 0 < |batch| <= BATCH_SIZE && Unpublished(s, batch) then
        q.(phase := Publishing(batch, |q.sent|, 0))
      else q
    case Publish =>
      if q.phase.Publishing? && q.phase.count < |q.phase.batch| then
        var Publishing(batch, first, count) := q.phase;
        q.(sent := q.sent + [batch[count]], unhandled := q.unhandled + {|q.sent|},
           phase := if count + 1 < |batch| then Publishing(batch, first, count + 1) else Confirming(batch, first, 0))
      else q
    case TakeReturn =>
      if q.phase.Confirming? && q.returned > 0 then q.(phase := Closed) else q
    case TakeConfirm =>
      if q.phase.Confirming? && q.confirms != [] && q.phase.count < |q.phase.batch| then
        var Confirming(batch, first, count) := q.phase;
        var f := q.confirms[0];
        q.(confirms := q.confirms[1..],
           phase := if f == ConfirmFrame(first + count, true) then Confirming(batch, first, count + 1) else Closed)
      else q
    case CheckReturns =>
      if q.phase.Confirming? && q.phase.count == |q.phase.batch| then
        q.(phase := if q.returned > 0 then Closed else Marking(q.phase.batch, q.phase.first))
      else q
    case MarkPublished =>
      if q.phase.Marking? then q.(phase := Polling) else q
    case ClosePublisher => q.(phase := Closed)
    case Handle(tag, fate) =>
      if tag in q.unhandled then
        q.(unhandled := q.unhandled - {tag}, fates := q.fates[tag := fate],
           wire := q.wire + (if fate == Unroutable then [ReturnFrame(tag)] else []) +
                   [ConfirmFrame(tag, fate != Refused)])
      else q
    case Transmit =>
      if q.wire == [] then q
      else if q.wire[0].ReturnFrame? then q.(wire := q.wire[1..], returned := q.returned + 1)
      else q.(wire := q.wire[1..], confirms := q.confirms + [q.wire[0]])
  }

  function NextPublish(s: State, p: nat, step: PublisherStep): State
    requires p in s.publishers
  {
    var q := s.publishers[p];
    var t := SetPublisher(s, p, NextPublisher(s, q, step));
    match step
    case MarkPublished =>
      if q.phase.Marking? then t.(published := Published(s, q.phase.batch)) else t
    case Handle(tag, fate) =>
      if tag in q.unhandled && tag < |q.sent| && fate == Routed then
        t.(events := s.events + multiset{Message(Some(q.sent[tag]), 0)})
      else t
    case _ => t
  }

  // ---------------------------------------------------------------------------------------------
  // Consuming
  // ---------------------------------------------------------------------------------------------

  function Current(d: Consumer): seq<Message> {
    if d.phase.Idle? || d.phase.Gone? then [] else [d.phase.message]
  }

  predicate CanConsume(s: State, d: Consumer, step: ConsumerStep) {
    match step
    case Deliver(m) => m in s.events && !d.phase.Gone? && |d.prefetched| + |Current(d)| < PREFETCH
    case Take => d.phase.Idle? && d.prefetched != []
    case CommitMarker(_) => d.phase.Handling?
    case Relay(_) => d.phase.Relaying? && d.phase.message.body.Some?
    case Acknowledge => d.phase.Acking?
    case Recover(_) => d.phase.Failing?
    case TakeRetryConfirm => d.phase.AwaitingConfirm? && d.confirms != []
    case GiveUpConfirm => d.phase.AwaitingConfirm?
    case Requeue => d.phase.Requeueing?
    case CloseConsumer => true
    case HandleRetry(tag, _) => tag in d.unhandled && tag < |d.retries|
  }

  /** The session after the step. A retry confirmation is taken without looking at its delivery tag. */
  function NextConsumer(s: State, d: Consumer, step: ConsumerStep): Consumer
    requires CanConsume(s, d, step)
  {
    match step
    case Deliver(m) => d.(prefetched := d.prefetched + [m])
    case Take => d.(phase := Handling(d.prefetched[0]), prefetched := d.prefetched[1..])
    case CommitMarker(ok) =>
      var m := d.phase.message;
      d.(phase := if m.body.None? then Idle else if ok then Relaying(m) else Failing(m))
    case Relay(ok) => d.(phase := if ok then Acking(d.phase.message) else Failing(d.phase.message))
    case Acknowledge => d.(phase := Idle)
    case Recover(sent) =>
      var m := d.phase.message;
      if m.attempt >= MAX_ATTEMPT then d.(phase := Idle)
      else if !sent then d.(phase := Requeueing(m))
      else d.(phase := AwaitingConfirm(m, |d.retries|), unhandled := d.unhandled + {|d.retries|},
              retries := d.retries + [m.(attempt := m.attempt + 1)])
    case TakeRetryConfirm =>
      d.(confirms := d.confirms[1..], phase := if d.confirms[0].1 then Idle else Requeueing(d.phase.message))
    case GiveUpConfirm => d.(phase := Requeueing(d.phase.message))
    case Requeue => d.(phase := Idle)
    case CloseConsumer => d.(phase := Gone, prefetched := [], confirms := [])
    case HandleRetry(tag, fate) =>
      d.(unhandled := d.unhandled - {tag}, fates := d.fates[tag := fate],
         confirms := d.confirms + [(tag, fate != Refused)])
  }

  function NextEvents(s: State, d: Consumer, step: ConsumerStep): multiset<Message>
    requires CanConsume(s, d, step)
  {
    match step
    case Deliver(m) => s.events - multiset{m}
    case Requeue => s.events + multiset{d.phase.message}
    case CloseConsumer => s.events + multiset(d.prefetched) + multiset(Current(d))
    case _ => s.events
  }

  /** Rejected without requeueing: a message that cannot be parsed, or one that has used up its attempts. */
  function NextDead(s: State, d: Consumer, step: ConsumerStep): multiset<Message>
    requires CanConsume(s, d, step)
  {
    if (step.CommitMarker? && d.phase.message.body.None?) || (step.Recover? && d.phase.message.attempt >= MAX_ATTEMPT)
    then s.dead + multiset{d.phase.message}
    else s.dead
  }

  function NextRetry(s: State, d: Consumer, step: ConsumerStep): multiset<Message>
    requires CanConsume(s, d, step)
  {
    if step.HandleRetry? && step.fate == Routed then s.retry + multiset{d.retries[step.tag]} else s.retry
  }

  function NextConsume(s: State, c: nat, step: ConsumerStep): State
    requires c in s.consumers
  {
    var d := s.consumers[c];
    if !CanConsume(s, d, step) then s
    else SetConsumer(s, c, NextConsumer(s, d, step)).(
      events := NextEvents(s, d, step),
      retry := NextRetry(s, d, step),
      dead := NextDead(s, d, step),
      markers := if step == CommitMarker(true) && d.phase.message.body.Some?
                 then s.markers + {d.phase.message.body.value} else s.markers,
      handled := if step == Relay(true) then s.handled + {d.phase.message.body.value} else s.handled)
  }

  function Next(s: State, step: Step): State {
    match step
    case CommitEvent(id) => if id in s.published then s else s.(published := s.published[id := false])
    case Foreign(m) => if m.attempt == 0 then s.(events := s.events + multiset{m}) else s
    case ExpireRetry(m) =>
      if m in s.retry then s.(retry := s.retry - multiset{m}, events := s.events + multiset{m}) else s
    case OpenPublisher(p) =>
      if p in s.publishers then s else SetPublisher(s, p, Publisher(Polling, [], {}, map[], [], [], 0))
    case OpenConsumer(c) =>
      if c in s.consumers then s else SetConsumer(s, c, Consumer(Idle, [], [], {}, map[], []))
    case PublisherDoes(p, doing) => if p in s.publishers then NextPublish(s, p, doing) else s
    case ConsumerDoes(c, action) => if c in s.consumers then NextConsume(s, c, action) else s
  }

  function Run(s: State, steps: seq<Step>): State
    decreases |steps|
  {
    if steps == [] then s else Run(Next(s, steps[0]), steps[1..])
  }

  // ---------------------------------------------------------------------------------------------
  // The invariant
  // ---------------------------------------------------------------------------------------------

  ghost predicate Unacks(s: State, c: nat, m: Message) {
    c in s.consumers && (m in s.consumers[c].prefetched || m in Current(s.consumers[c]))
  }

  /** A copy of the message is in a queue, ready or delivered and not yet acknowledged. */
  ghost predicate Present(s: State, m: Message) {
    m in s.events || m in s.retry || m in s.dead || exists c :: Unacks(s, c, m)
  }

  ghost predicate Copies(s: State, id: EventId, attempt: nat, m: Message) {
    Present(s, m) && m.body == Some(id) && m.attempt >= attempt
  }

  /** The event has been handled, or a copy with at least this attempt header is still around. */
  ghost predicate Covered(s: State, id: EventId, attempt: nat) {
    id in s.handled || exists m :: Copies(s, id, attempt, m)
  }

  ghost predicate Numbered(batch: seq<EventId>, first: nat, count: nat, sent: seq<EventId>) {
    && count <= |batch| && first + count <= |sent|
    && forall i | 0 <= i < count :: sent[first + i] == batch[i]
  }

  /** A positive confirmation of an unroutable message never overtakes its return. */
  ghost predicate ReturnsFirst(q: Publisher) {
    && (forall f | f in q.confirms :: f.tag in q.fates && (q.fates[f.tag] == Unroutable ==> q.returned > 0))
    && (forall j | 0 <= j < |q.wire| && q.wire[j].ConfirmFrame? :: q.wire[j].tag in q.fates &&
          (q.fates[q.wire[j].tag] == Unroutable ==> q.returned > 0 || ReturnFrame(q.wire[j].tag) in q.wire[..j]))
  }

  ghost predicate Truthful(q: Publisher, f: Frame) {
    f.ConfirmFrame? ==> f.tag in q.fates && (f.ack <==> q.fates[f.tag] != Refused)
  }

  /** The broker has positively confirmed the tag, and its return, if it had one, has arrived. */
  ghost predicate Confirmed(q: Publisher, tag: nat) {
    tag in q.fates && q.fates[tag] != Refused && (q.fates[tag] == Unroutable ==> q.returned > 0)
  }

  ghost predicate Delivered(q: Publisher, tag: nat) {
    tag in q.fates && q.fates[tag] == Routed
  }

  ghost predicate PhaseOk(q: Publisher) {
    match q.phase
    case Publishing(batch, first, count) =>
      Numbered(batch, first, count, q.sent) && first + count == |q.sent| && count < |batch|
    case Confirming(batch, first, count) =>
      && Numbered(batch, first, |batch|, q.sent) && count <= |batch|
      && (forall tag | first <= tag < first + count :: Confirmed(q, tag))
    case Marking(batch, first) =>
      && Numbered(batch, first, |batch|, q.sent)
      && (forall tag | first <= tag < first + |batch| :: Delivered(q, tag))
    case _ => true
  }

  ghost predicate ChannelOk(q: Publisher) {
    && (forall tag | tag in q.unhandled :: tag < |q.sent| && tag !in q.fates)
    && (forall tag | tag in q.fates :: tag < |q.sent|)
    && (forall f | f in q.wire || f in q.confirms :: Truthful(q, f))
    && (forall f | f in q.confirms :: f.ConfirmFrame?)
    && ReturnsFirst(q)
  }

  ghost predicate RoutedCovered(s: State, q: Publisher) {
    forall tag | tag in q.fates && q.fates[tag] == Routed && tag < |q.sent| :: Covered(s, q.sent[tag], 0)
  }

  ghost predicate Limited(m: Message) {
    m.attempt <= MAX_ATTEMPT
  }

  ghost predicate MessagesOk(d: Consumer) {
    && (forall m | m in d.prefetched || m in Current(d) || m in d.retries :: Limited(m))
    && (forall m | m in d.retries :: m.body.Some?)
  }

  ghost predicate TagsOk(d: Consumer) {
    && (forall tag | tag in d.unhandled :: tag < |d.retries| && tag !in d.fates)
    && (forall tag | tag in d.fates :: tag < |d.retries|)
    && (forall e | e in d.confirms :: e.0 in d.fates && (e.1 <==> d.fates[e.0] != Refused))
  }

  ghost predicate StageOk(s: State, d: Consumer) {
    match d.phase
    case Relaying(m) => m.body.Some? && m.body.value in s.markers
    case Acking(m) => m.body.Some? && m.body.value in s.handled
    case Failing(m) => m.body.Some?
    case Requeueing(m) => m.body.Some?
    case AwaitingConfirm(m, tag) =>
      m.body.Some? && tag < |d.retries| && d.retries[tag] == m.(attempt := m.attempt + 1)
    case _ => true
  }

  ghost predicate ConsumerOk(s: State, d: Consumer) {
    MessagesOk(d) && TagsOk(d) && StageOk(s, d)
  }

  ghost predicate Inv(s: State) {
    && (forall id | id in s.published && s.published[id] :: Covered(s, id, 0))
    && s.handled <= s.markers
    && (forall m | m in s.events || m in s.retry || m in s.dead :: Limited(m))
    && (forall p | p in s.publishers ::
          ChannelOk(s.publishers[p]) && PhaseOk(s.publishers[p]) && RoutedCovered(s, s.publishers[p]))
    && (forall c | c in s.consumers :: ConsumerOk(s, s.consumers[c]))
  }

  /** No event that has been handled or has a copy somewhere loses both. */
  ghost predicate KeepsEvents(s: State, t: State) {
    && s.handled <= t.handled && s.markers <= t.markers
    && forall id :: Covered(s, id, 0) ==> Covered(t, id, 0)
  }

  /** Moreover the copies that are left have got no fewer attempts. */
  ghost predicate KeepsCover(s: State, t: State) {
    && s.handled <= t.handled && s.markers <= t.markers
    && forall id, a :: Covered(s, id, a) ==> Covered(t, id, a)
  }

  /** If every copy that is present stays present, every cover stays. */
  lemma PresentIsEnough(s: State, t: State)
    requires s.handled <= t.handled && s.markers <= t.markers
    requires forall m :: Present(s, m) ==> Present(t, m)
    ensures KeepsCover(s, t)
  {
    forall id, a | Covered(s, id, a) ensures Covered(t, id, a) {
      if id !in s.handled {
        var m :| Copies(s, id, a, m);
        assert Copies(t, id, a, m);
      }
    }
  }

  lemma CoverCarries(s: State, t: State)
    requires KeepsEvents(s, t)
    ensures forall d :: ConsumerOk(s, d) ==> ConsumerOk(t, d)
    ensures forall q :: RoutedCovered(s, q) ==> RoutedCovered(t, q)
  {
  }

  // ---------------------------------------------------------------------------------------------
  // Publisher steps
  // ---------------------------------------------------------------------------------------------

  lemma TransmitKeeps(q: Publisher)
    requires ChannelOk(q) && q.wire != []
    ensures ChannelOk(NextPublisher(INIT, q, Transmit))
  {
    hide PhaseOk;
    var t := NextPublisher(INIT, q, Transmit);
    assert forall j | 0 <= j < |t.wire| :: t.wire[j] == q.wire[j + 1];
    assert forall f | f in t.wire || f in t.confirms :: f in q.wire || f in q.confirms;
    forall f | f in t.wire || f in t.confirms ensures Truthful(t, f) { assert Truthful(q, f); }
    forall j | 0 <= j < |t.wire| && t.wire[j].ConfirmFrame? && q.wire[0].ConfirmFrame?
      ensures ReturnFrame(t.wire[j].tag) in q.wire[..j + 1] ==> ReturnFrame(t.wire[j].tag) in t.wire[..j]
    {
      assert q.wire[..j + 1] == [q.wire[0]] + t.wire[..j];
    }
  }

  lemma HandleKeeps(q: Publisher, tag: nat, fate: Fate)
    requires ChannelOk(q) && tag in q.unhandled
    ensures ChannelOk(NextPublisher(INIT, q, Handle(tag, fate)))
    ensures tag < |q.sent| && tag !in q.fates
  {
    var t := NextPublisher(INIT, q, Handle(tag, fate));
    var added := (if fate == Unroutable then [ReturnFrame(tag)] else []) + [ConfirmFrame(tag, fate != Refused)];
    assert t.wire == q.wire + added;
    forall f | f in t.wire || f in t.confirms ensures Truthful(t, f) {
      assert f in q.wire || f in q.confirms || f in added;
      assert Truthful(q, f) || f in added;
    }
    HandleKeepsReturnsFirst(q, tag, fate);
  }

  lemma HandleKeepsReturnsFirst(q: Publisher, tag: nat, fate: Fate)
    requires ReturnsFirst(q) && tag in q.unhandled && tag !in q.fates
    ensures ReturnsFirst(NextPublisher(INIT, q, Handle(tag, fate)))
  {
    var t := NextPublisher(INIT, q, Handle(tag, fate));
    var n := |q.wire|;
    forall j | 0 <= j < |t.wire| && t.wire[j].ConfirmFrame?
      ensures t.wire[j].tag in t.fates
      ensures t.fates[t.wire[j].tag] == Unroutable ==> t.returned > 0 || ReturnFrame(t.wire[j].tag) in t.wire[..j]
    {
      if j < n {
        assert t.wire[j] == q.wire[j] && t.wire[..j] == q.wire[..j];
      } else if fate == Unroutable {
        assert t.wire[..j][n] == ReturnFrame(tag);
      }
    }
  }

  lemma ConfirmKeeps(s: State, q: Publisher)
    requires ChannelOk(q) && PhaseOk(q) && q.phase.Confirming? && q.confirms != [] && q.phase.count < |q.phase.batch|
    ensures var t := NextPublisher(s, q, TakeConfirm); ChannelOk(t) && PhaseOk(t)
  {
    var f := q.confirms[0];
    assert f in q.confirms && Truthful(q, f);
    var t := NextPublisher(s, q, TakeConfirm);
    assert forall tag :: Confirmed(q, tag) ==> Confirmed(t, tag);
    assert f.ack ==> Confirmed(t, f.tag);
  }

  /** More returns arriving, or more tags being dealt with, never spoil what a phase relies on. */
  lemma PhaseStays(q: Publisher, t: Publisher)
    requires PhaseOk(q) && t.phase == q.phase && t.sent == q.sent && t.returned >= q.returned
    requires forall tag | tag in q.fates :: tag in t.fates && t.fates[tag] == q.fates[tag]
    ensures PhaseOk(t)
  {
    assert forall tag :: (Confirmed(q, tag) ==> Confirmed(t, tag)) && (Delivered(q, tag) ==> Delivered(t, tag));
  }

  /** Steps that neither the broker nor the network takes leave what was sent and confirmed alone. */
  lemma LocalStepKeeps(s: State, q: Publisher, step: PublisherStep)
    requires ChannelOk(q) && PhaseOk(q) && !step.Handle? && !step.Transmit? && !step.TakeConfirm?
    ensures var t := NextPublisher(s, q, step); ChannelOk(t) && PhaseOk(t)
  {
    var t := NextPublisher(s, q, step);
    assert q.sent <= t.sent && t.fates == q.fates;
    assert t.wire == q.wire && t.confirms == q.confirms && t.returned == q.returned;
    assert ChannelOk(t) by {
      assert forall f :: Truthful(q, f) ==> Truthful(t, f);
    }
    if step.CheckReturns? && t.phase.Marking? && q.phase.Confirming? {
      assert forall tag :: Confirmed(q, tag) ==> Delivered(t, tag);
    }
  }

  lemma PublisherKeeps(s: State, q: Publisher, step: PublisherStep)
    requires ChannelOk(q) && PhaseOk(q) && !step.Handle?
    ensures var t := NextPublisher(s, q, step); ChannelOk(t) && PhaseOk(t) && t.fates == q.fates && q.sent <= t.sent
  {
    hide ChannelOk;
    if step.Transmit? {
      if q.wire != [] {
        TransmitKeeps(q);
        PhaseStays(q, NextPublisher(s, q, step));
      }
    } else if step.TakeConfirm? {
      if q.phase.Confirming? && q.confirms != [] && q.phase.count < |q.phase.batch| { ConfirmKeeps(s, q); }
    } else {
      LocalStepKeeps(s, q, step);
    }
  }

  /** What is left to show when one publisher session and the queues and rows have changed. */
  lemma PublisherChanged(s: State, t: State, p: nat)
    requires Inv(s) && KeepsEvents(s, t) && t.handled <= t.markers
    requires p in t.publishers && t.publishers.Keys <= s.publishers.Keys + {p} && t.consumers == s.consumers
    requires forall o | o in t.publishers && o != p :: t.publishers[o] == s.publishers[o]
    requires forall id | id in t.published && t.published[id] :: Covered(t, id, 0)
    requires forall m | m in t.events || m in t.retry || m in t.dead :: Limited(m)
    requires ChannelOk(t.publishers[p]) && PhaseOk(t.publishers[p]) && RoutedCovered(t, t.publishers[p])
    ensures Inv(t)
  {
    hide ChannelOk, PhaseOk, ConsumerOk, Limited, Covered;
    CoverCarries(s, t);
  }

  lemma SameQueues(s: State, t: State)
    requires s.events <= t.events && t.retry == s.retry && t.dead == s.dead && t.consumers == s.consumers
    requires t.handled == s.handled && t.markers == s.markers
    ensures KeepsCover(s, t)
  {
    forall m | Present(s, m) ensures Present(t, m) {
      if !(m in s.events || m in s.retry || m in s.dead) {
        var c :| Unacks(s, c, m);
        assert Unacks(t, c, m);
      }
    }
    PresentIsEnough(s, t);
  }

  /** The rows of a batch are marked only when every one of them was routed. */
  lemma MarkKeepsRowsCovered(s: State, q: Publisher)
    requires RoutedCovered(s, q) && PhaseOk(q) && q.phase.Marking?
    requires forall id | id in s.published && s.published[id] :: Covered(s, id, 0)
    ensures forall id | id in Published(s, q.phase.batch) && Published(s, q.phase.batch)[id] :: Covered(s, id, 0)
  {
    var batch, first := q.phase.batch, q.phase.first;
    forall id | id in batch ensures Covered(s, id, 0) {
      var i :| 0 <= i < |batch| && batch[i] == id;
      assert q.sent[first + i] == id && Delivered(q, first + i);
    }
  }

  lemma SendingMoreIsCovered(s: State, q: Publisher, t: Publisher)
    requires ChannelOk(q) && RoutedCovered(s, q) && t.fates == q.fates && q.sent <= t.sent
    ensures RoutedCovered(s, t)
  {
  }

  lemma PublishKeeps(s: State, p: nat, step: PublisherStep)
    requires Inv(s) && p in s.publishers && !step.Handle?
    ensures Inv(NextPublish(s, p, step)) && KeepsCover(s, NextPublish(s, p, step))
  {
    hide ChannelOk, PhaseOk, ConsumerOk, Limited, Covered;
    var q := s.publishers[p];
    var t := NextPublish(s, p, step);
    SameQueues(s, t);
    CoverCarries(s, t);
    PublisherKeeps(s, q, step);
    SendingMoreIsCovered(t, q, t.publishers[p]);
    if step.MarkPublished? && q.phase.Marking? {
      MarkKeepsRowsCovered(s, q);
    }
    PublisherChanged(s, t, p);
  }

  /** A message the broker has routed is in the events queue. */
  lemma RoutedIsCovered(s: State, t: State, q: Publisher, tag: nat, fate: Fate)
    requires KeepsCover(s, t) && RoutedCovered(s, q) && tag in q.unhandled && tag < |q.sent|
    requires fate == Routed ==> Message(Some(q.sent[tag]), 0) in t.events
    ensures RoutedCovered(t, NextPublisher(s, q, Handle(tag, fate)))
  {
    assert fate == Routed ==> Copies(t, q.sent[tag], 0, Message(Some(q.sent[tag]), 0));
  }

  lemma RouteKeeps(s: State, p: nat, tag: nat, fate: Fate)
    requires Inv(s) && p in s.publishers
    ensures var t := NextPublish(s, p, Handle(tag, fate)); Inv(t) && KeepsCover(s, t)
  {
    hide ChannelOk, PhaseOk, RoutedCovered, ConsumerOk, Covered;
    var q := s.publishers[p];
    var t := NextPublish(s, p, Handle(tag, fate));
    SameQueues(s, t);
    if tag in q.unhandled {
      HandleKeeps(q, tag, fate);
      PhaseStays(q, t.publishers[p]);
      RoutedIsCovered(s, t, q, tag, fate);
    } else {
      CoverCarries(s, t);
    }
    assert ChannelOk(t.publishers[p]) && RoutedCovered(t, t.publishers[p]);
    PublisherChanged(s, t, p);
  }

  // ---------------------------------------------------------------------------------------------
  // Consumer steps
  // ---------------------------------------------------------------------------------------------

  /** The message in hand is the last trace of its event: not handled, and no other copy is anywhere. */
  ghost predicate LastCopy(s: State, c: nat)
    requires c in s.consumers && s.consumers[c].phase.AwaitingConfirm?
  {
    var d := s.consumers[c];
    var body := d.phase.message.body;
    && body.Some? && body.value !in s.handled
    && forall m: Message | m.body == body ::
         && m !in s.events && m !in s.retry && m !in s.dead && m !in d.prefetched
         && forall e | e != c :: !Unacks(s, e, m)
  }

  /** The step acknowledges the last copy of an event, trusting a positive confirmation. */
  ghost predicate Uncovers(s: State, step: Step) {
    && step.ConsumerDoes? && step.action.TakeRetryConfirm? && step.c in s.consumers
    && var d := s.consumers[step.c];
       d.phase.AwaitingConfirm? && d.confirms != [] && d.confirms[0].1 && LastCopy(s, step.c)
  }

  /** The retry being waited for has been routed to the retry queue. */
  ghost predicate AwaitedIsRouted(d: Consumer) {
    d.phase.AwaitingConfirm? && d.phase.tag in d.fates && d.fates[d.phase.tag] == Routed
  }

  ghost predicate RetriesCovered(s: State, d: Consumer) {
    forall tag | tag in d.fates && d.fates[tag] == Routed && tag < |d.retries| && d.retries[tag].body.Some? ::
      Covered(s, d.retries[tag].body.value, d.retries[tag].attempt)
  }

  ghost predicate Holds(d: Consumer, m: Message) {
    m in d.prefetched || m in Current(d)
  }

  lemma HeldIsKept(s: State, c: nat, step: ConsumerStep, m: Message)
    requires c in s.consumers && Holds(s.consumers[c], m) && !step.Acknowledge? && !step.TakeRetryConfirm?
    ensures var t := NextConsume(s, c, step); m in t.events || m in t.dead || Holds(t.consumers[c], m)
  {
    var d := s.consumers[c];
    match step {
      case Take => if d.phase.Idle? && m != d.prefetched[0] { assert m in d.prefetched[1..]; }
      case CloseConsumer =>
        assert m in d.prefetched ==> m in multiset(d.prefetched);
        assert m in Current(d) ==> m in multiset(Current(d));
      case _ =>
    }
  }

  lemma EventIsKept(s: State, c: nat, step: ConsumerStep, m: Message)
    requires c in s.consumers && m in s.events
    ensures var t := NextConsume(s, c, step); m in t.events || Holds(t.consumers[c], m)
  {
  }

  /** Apart from acknowledgements, what a consumer step takes from one place it puts in another. */
  lemma ConsumerMovesCopies(s: State, c: nat, step: ConsumerStep, m: Message)
    requires c in s.consumers && Present(s, m) && !step.Acknowledge? && !step.TakeRetryConfirm?
    ensures Present(NextConsume(s, c, step), m)
  {
    hide CanConsume, NextConsumer, NextEvents;
    var t := NextConsume(s, c, step);
    if Holds(s.consumers[c], m) {
      HeldIsKept(s, c, step, m);
      assert Holds(t.consumers[c], m) ==> Unacks(t, c, m);
    } else if m in s.events {
      EventIsKept(s, c, step, m);
      assert Holds(t.consumers[c], m) ==> Unacks(t, c, m);
    } else if m !in s.retry && m !in s.dead {
      var e :| Unacks(s, e, m);
      OtherSessionKeeps(s, c, step, e, m);
    }
  }

  lemma OtherSessionKeeps(s: State, c: nat, step: ConsumerStep, e: nat, m: Message)
    requires c in s.consumers && Unacks(s, e, m) && e != c
    ensures Unacks(NextConsume(s, c, step), e, m)
  {
  }

  /** An acknowledgement drops one copy of one message, no other. */
  lemma OtherCopiesStay(s: State, c: nat, step: ConsumerStep, m: Message)
    requires c in s.consumers && Present(s, m) && (step.Acknowledge? || step.TakeRetryConfirm?)
    requires m !in Current(s.consumers[c]) || m in Current(NextConsume(s, c, step).consumers[c])
    ensures Present(NextConsume(s, c, step), m)
  {
    var t := NextConsume(s, c, step);
    if !(m in s.events || m in s.retry || m in s.dead) {
      var e :| Unacks(s, e, m);
      assert Unacks(t, e, m);
    }
  }

  /** An acknowledged message has been handled. */
  lemma AcknowledgedIsCovered(s: State, c: nat, id: EventId, a: nat)
    requires c in s.consumers && ConsumerOk(s, s.consumers[c]) && Covered(s, id, a)
    ensures Covered(NextConsume(s, c, Acknowledge), id, a)
  {
    var t := NextConsume(s, c, Acknowledge);
    if t != s && id !in s.handled {
      var m :| Copies(s, id, a, m);
      OtherCopiesStay(s, c, Acknowledge, m);
      assert Copies(t, id, a, m);
    }
  }

  lemma ConsumerCover(s: State, c: nat, step: ConsumerStep)
    requires c in s.consumers && ConsumerOk(s, s.consumers[c]) && !step.TakeRetryConfirm?
    ensures KeepsCover(s, NextConsume(s, c, step))
  {
    var t := NextConsume(s, c, step);
    if step.Acknowledge? {
      forall id, a | Covered(s, id, a) ensures Covered(t, id, a) {
        AcknowledgedIsCovered(s, c, id, a);
      }
    } else {
      forall m | Present(s, m) ensures Present(t, m) {
        ConsumerMovesCopies(s, c, step, m);
      }
      PresentIsEnough(s, t);
    }
  }

  /** A confirmation that is not positive, or not enabled, acknowledges nothing. */
  lemma NegativeConfirmKeeps(s: State, c: nat)
    requires c in s.consumers && (CanConsume(s, s.consumers[c], TakeRetryConfirm) ==> !s.consumers[c].confirms[0].1)
    ensures KeepsCover(s, NextConsume(s, c, TakeRetryConfirm))
  {
    var t := NextConsume(s, c, TakeRetryConfirm);
    forall m | Present(s, m) ensures Present(t, m) {
      if t != s { OtherCopiesStay(s, c, TakeRetryConfirm, m); }
    }
    PresentIsEnough(s, t);
  }

  lemma LastCopyGoes(s: State, c: nat)
    requires c in s.consumers && CanConsume(s, s.consumers[c], TakeRetryConfirm) && s.consumers[c].confirms[0].1
    requires LastCopy(s, c)
    ensures !Covered(NextConsume(s, c, TakeRetryConfirm), s.consumers[c].phase.message.body.value, 0)
  {
    var id := s.consumers[c].phase.message.body.value;
    var t := NextConsume(s, c, TakeRetryConfirm);
    forall m ensures !Copies(t, id, 0, m) {
      assert forall e :: Unacks(t, e, m) ==> e == c || Unacks(s, e, m);
    }
  }

  /** A positive one uncovers the event exactly when the message in hand is the last trace of it. */
  lemma PositiveConfirmKeepsIff(s: State, c: nat)
    requires c in s.consumers && ConsumerOk(s, s.consumers[c])
    requires CanConsume(s, s.consumers[c], TakeRetryConfirm) && s.consumers[c].confirms[0].1
    ensures KeepsEvents(s, NextConsume(s, c, TakeRetryConfirm)) <==> !LastCopy(s, c)
  {
    var d := s.consumers[c];
    var mine := d.phase.message;
    var id := mine.body.value;
    var t := NextConsume(s, c, TakeRetryConfirm);
    assert Unacks(s, c, mine) && Copies(s, id, 0, mine);
    if LastCopy(s, c) {
      LastCopyGoes(s, c);
    } else {
      OtherCopyCovers(s, c);
      forall other | Covered(s, other, 0) && other !in s.handled && other != id ensures Covered(t, other, 0) {
        var m :| Copies(s, other, 0, m);
        OtherCopiesStay(s, c, TakeRetryConfirm, m);
        assert Copies(t, other, 0, m);
      }
    }
  }

  lemma OtherCopyCovers(s: State, c: nat)
    requires c in s.consumers && CanConsume(s, s.consumers[c], TakeRetryConfirm) && !LastCopy(s, c)
    requires s.consumers[c].phase.message.body.Some?
    ensures Covered(NextConsume(s, c, TakeRetryConfirm), s.consumers[c].phase.message.body.value, 0)
  {
    var d := s.consumers[c];
    var body := d.phase.message.body;
    var t := NextConsume(s, c, TakeRetryConfirm);
    if body.value !in s.handled {
      var m: Message :| m.body == body && (m in s.events || m in s.retry || m in s.dead || m in d.prefetched ||
                                           exists e :: e != c && Unacks(s, e, m));
      if m in d.prefetched {
        assert Unacks(t, c, m);
      } else if !(m in s.events || m in s.retry || m in s.dead) {
        var e :| e != c && Unacks(s, e, m);
        assert Unacks(t, e, m);
      }
      assert Copies(t, body.value, 0, m);
    }
  }

  /** The awaited retry, once routed, has a higher attempt than the message in hand, and outlasts it. */
  lemma RoutedRetryCovers(s: State, c: nat)
    requires c in s.consumers && ConsumerOk(s, s.consumers[c]) && RetriesCovered(s, s.consumers[c])
    requires AwaitedIsRouted(s.consumers[c])
    ensures KeepsCover(s, NextConsume(s, c, TakeRetryConfirm)) && !LastCopy(s, c)
  {
    var d := s.consumers[c];
    var mine, retried := d.phase.message, d.retries[d.phase.tag];
    var t := NextConsume(s, c, TakeRetryConfirm);
    assert Covered(s, mine.body.value, retried.attempt);
    forall id, a | Covered(s, id, a) ensures Covered(t, id, a) {
      if t != s && id !in s.handled {
        var m :| Copies(s, id, a, m);
        if m == mine {
          m :| Copies(s, id, retried.attempt, m);
        }
        OtherCopiesStay(s, c, TakeRetryConfirm, m);
        assert Copies(t, id, a, m);
      }
    }
    if mine.body.value !in s.handled {
      var m :| Copies(s, mine.body.value, retried.attempt, m);
      if !(m in s.events || m in s.retry || m in s.dead || m in d.prefetched) {
        var e :| Unacks(s, e, m);
      }
    }
  }

  /** What is left to show when one consumer session and the queues have changed. */
  lemma ConsumerChanged(s: State, t: State, c: nat)
    requires Inv(s) && KeepsEvents(s, t) && t.handled <= t.markers
    requires c in t.consumers && t.consumers.Keys <= s.consumers.Keys + {c}
    requires t.publishers == s.publishers && t.published == s.published
    requires forall o | o in t.consumers && o != c :: t.consumers[o] == s.consumers[o]
    requires forall m | m in t.events || m in t.retry || m in t.dead :: Limited(m)
    requires ConsumerOk(t, t.consumers[c])
    ensures Inv(t)
  {
    hide ChannelOk, PhaseOk, ConsumerOk, Limited, Covered;
    CoverCarries(s, t);
  }

  lemma EventsFrom(s: State, d: Consumer, step: ConsumerStep, m: Message)
    requires CanConsume(s, d, step) && m in NextEvents(s, d, step)
    ensures m in s.events || m in d.prefetched || m in Current(d)
  {
    if step.CloseConsumer? {
      assert m in s.events || m in multiset(d.prefetched) || m in multiset(Current(d));
    }
  }

  lemma RetryFrom(s: State, d: Consumer, step: ConsumerStep, m: Message)
    requires CanConsume(s, d, step) && m in NextRetry(s, d, step)
    ensures m in s.retry || m in d.retries
  {
  }

  lemma DeadFrom(s: State, d: Consumer, step: ConsumerStep, m: Message)
    requires CanConsume(s, d, step) && m in NextDead(s, d, step)
    ensures m in s.dead || m in Current(d)
  {
  }

  lemma QueuesStayLimited(s: State, d: Consumer, step: ConsumerStep, m: Message)
    requires CanConsume(s, d, step) && ConsumerOk(s, d)
    requires m in NextEvents(s, d, step) || m in NextRetry(s, d, step) || m in NextDead(s, d, step)
    ensures m in s.events || m in s.retry || m in s.dead || Limited(m)
  {
    hide CanConsume, NextEvents, NextRetry, NextDead, Limited, Current, TagsOk, StageOk;
    if m in NextEvents(s, d, step) {
      EventsFrom(s, d, step, m);
    } else if m in NextRetry(s, d, step) {
      RetryFrom(s, d, step, m);
    } else {
      DeadFrom(s, d, step, m);
    }
  }

  lemma MessagesStayOk(s: State, d: Consumer, step: ConsumerStep)
    requires CanConsume(s, d, step) && MessagesOk(d) && StageOk(s, d)
    requires forall m | m in s.events :: Limited(m)
    ensures MessagesOk(NextConsumer(s, d, step))
  {
  }

  lemma TagsStayOk(s: State, d: Consumer, step: ConsumerStep)
    requires CanConsume(s, d, step) && TagsOk(d)
    ensures TagsOk(NextConsumer(s, d, step))
  {
  }

  lemma StageStaysOk(s: State, t: State, d: Consumer, step: ConsumerStep)
    requires CanConsume(s, d, step) && StageOk(t, d)
    requires step == CommitMarker(true) && d.phase.message.body.Some? ==> d.phase.message.body.value in t.markers
    requires step == Relay(true) ==> d.phase.message.body.value in t.handled
    ensures StageOk(t, NextConsumer(s, d, step))
  {
  }

  lemma ConsumerStaysOk(s: State, t: State, d: Consumer, step: ConsumerStep)
    requires CanConsume(s, d, step) && ConsumerOk(s, d) && ConsumerOk(t, d)
    requires forall m | m in s.events :: Limited(m)
    requires step == CommitMarker(true) && d.phase.message.body.Some? ==> d.phase.message.body.value in t.markers
    requires step == Relay(true) ==> d.phase.message.body.value in t.handled
    ensures ConsumerOk(t, NextConsumer(s, d, step))
  {
    hide NextConsumer, MessagesOk, TagsOk, StageOk, Limited;
    MessagesStayOk(s, d, step);
    TagsStayOk(s, d, step);
    StageStaysOk(s, t, d, step);
  }

  lemma HandledHasMarker(s: State, c: nat, step: ConsumerStep)
    requires c in s.consumers && ConsumerOk(s, s.consumers[c]) && s.handled <= s.markers
    ensures NextConsume(s, c, step).handled <= NextConsume(s, c, step).markers
  {
  }

  lemma ConsumeKeeps(s: State, c: nat, step: ConsumerStep)
    requires Inv(s) && c in s.consumers && KeepsEvents(s, NextConsume(s, c, step))
    ensures Inv(NextConsume(s, c, step))
  {
    hide ChannelOk, PhaseOk, RoutedCovered, Covered, ConsumerOk, Limited, NextConsumer;
    var d := s.consumers[c];
    var t := NextConsume(s, c, step);
    assert ConsumerOk(s, d);
    if CanConsume(s, d, step) {
      assert ConsumerOk(t, t.consumers[c]) by {
        CoverCarries(s, t);
        ConsumerStaysOk(s, t, d, step);
      }
      forall m | m in t.events || m in t.retry || m in t.dead ensures Limited(m) {
        QueuesStayLimited(s, d, step, m);
      }
      HandledHasMarker(s, c, step);
      ConsumerChanged(s, t, c);
    }
  }

  // ---------------------------------------------------------------------------------------------
  // Whole runs
  // ---------------------------------------------------------------------------------------------

  lemma EnvironmentChanged(s: State, t: State)
    requires Inv(s) && KeepsEvents(s, t) && t.handled <= t.markers
    requires t.publishers == s.publishers && t.consumers == s.consumers
    requires forall id | id in t.published && t.published[id] :: id in s.published && s.published[id]
    requires forall m | m in t.events || m in t.retry || m in t.dead :: Limited(m)
    ensures Inv(t)
  {
    hide ChannelOk, PhaseOk, ConsumerOk, Limited, Covered;
    CoverCarries(s, t);
  }

  lemma ExpiryMoves(s: State, m: Message)
    requires m in s.retry
    ensures KeepsCover(s, Next(s, ExpireRetry(m)))
  {
    var t := Next(s, ExpireRetry(m));
    forall n | Present(s, n) ensures Present(t, n) {
      if n !in s.events && n !in s.retry && n !in s.dead {
        var c :| Unacks(s, c, n);
        assert Unacks(t, c, n);
      }
    }
    PresentIsEnough(s, t);
  }

  lemma OpenConsumerKeeps(s: State, c: nat)
    requires Inv(s) && c !in s.consumers
    ensures var t := Next(s, OpenConsumer(c)); Inv(t) && KeepsCover(s, t)
  {
    hide ChannelOk, PhaseOk, RoutedCovered, Covered;
    var t := Next(s, OpenConsumer(c));
    forall m | Present(s, m) ensures Present(t, m) {
      if m !in s.events && m !in s.retry && m !in s.dead {
        var e :| Unacks(s, e, m);
        assert Unacks(t, e, m);
      }
    }
    PresentIsEnough(s, t);
    ConsumerChanged(s, t, c);
  }

  lemma OpenPublisherKeeps(s: State, p: nat)
    requires Inv(s) && p !in s.publishers
    ensures var t := Next(s, OpenPublisher(p)); Inv(t) && KeepsCover(s, t)
  {
    hide ChannelOk, PhaseOk, ConsumerOk, Limited, Covered;
    var t := Next(s, OpenPublisher(p));
    SameQueues(s, t);
    FreshPublisherOk();
    assert RoutedCovered(t, t.publishers[p]);
    CoverCarries(s, t);
    PublisherChanged(s, t, p);
  }

  lemma ExpiryKeeps(s: State, m: Message)
    requires Inv(s) && m in s.retry
    ensures var t := Next(s, ExpireRetry(m)); Inv(t) && KeepsCover(s, t)
  {
    hide ChannelOk, PhaseOk, RoutedCovered, Covered;
    ExpiryMoves(s, m);
    EnvironmentChanged(s, Next(s, ExpireRetry(m)));
  }

  lemma CommitKeeps(s: State, id: EventId)
    requires Inv(s)
    ensures var t := Next(s, CommitEvent(id)); Inv(t) && KeepsCover(s, t)
  {
    hide ChannelOk, PhaseOk, RoutedCovered, Covered;
    var t := Next(s, CommitEvent(id));
    SameQueues(s, t);
    EnvironmentChanged(s, t);
  }

  lemma ForeignKeeps(s: State, m: Message)
    requires Inv(s)
    ensures var t := Next(s, Foreign(m)); Inv(t) && KeepsCover(s, t)
  {
    hide ChannelOk, PhaseOk, RoutedCovered, ConsumerOk, Covered;
    var t := Next(s, Foreign(m));
    SameQueues(s, t);
    EnvironmentChanged(s, t);
  }

  /** Every step but the taking of a retry confirmation keeps the invariant and every cover. */
  lemma OtherStepsKeep(s: State, step: Step)
    requires Inv(s) && !(step.ConsumerDoes? && step.action.TakeRetryConfirm?)
    ensures Inv(Next(s, step)) && KeepsCover(s, Next(s, step))
  {
    hide Inv, Covered, NextPublish, NextConsume;
    match step {
      case CommitEvent(id) => CommitKeeps(s, id);
      case Foreign(m) => ForeignKeeps(s, m);
      case ExpireRetry(m) => if m in s.retry { ExpiryKeeps(s, m); }
      case OpenPublisher(p) => if p !in s.publishers { OpenPublisherKeeps(s, p); }
      case OpenConsumer(c) => if c !in s.consumers { OpenConsumerKeeps(s, c); }
      case PublisherDoes(p, doing) =>
        if p in s.publishers {
          if doing.Handle? { RouteKeeps(s, p, doing.tag, doing.fate); } else { PublishKeeps(s, p, doing); }
        }
      case ConsumerDoes(c, action) =>
        if c in s.consumers {
          ConsumersAreOk(s, c);
          ConsumerCover(s, c, action);
          ConsumeKeeps(s, c, action);
        }
    }
  }

  lemma ConsumersAreOk(s: State, c: nat)
    requires Inv(s) && c in s.consumers
    ensures ConsumerOk(s, s.consumers[c])
  {
  }

  /** Exactly one kind of step can lose an event. */
  lemma StepKeepsIff(s: State, step: Step)
    requires Inv(s)
    ensures KeepsEvents(s, Next(s, step)) <==> !Uncovers(s, step)
    ensures KeepsEvents(s, Next(s, step)) ==> Inv(Next(s, step))
  {
    hide Inv, Covered, NextPublish, NextConsume, LastCopy;
    if !(step.ConsumerDoes? && step.action.TakeRetryConfirm?) {
      OtherStepsKeep(s, step);
    } else if step.c in s.consumers {
      var d := s.consumers[step.c];
      ConsumersAreOk(s, step.c);
      if CanConsume(s, d, TakeRetryConfirm) && d.confirms[0].1 {
        PositiveConfirmKeepsIff(s, step.c);
      } else {
        NegativeConfirmKeeps(s, step.c);
      }
      if KeepsEvents(s, Next(s, step)) {
        ConsumeKeeps(s, step.c, TakeRetryConfirm);
      }
    }
  }

  ghost predicate NoneUncovers(s: State, steps: seq<Step>)
    decreases |steps|
  {
    steps == [] || (!Uncovers(s, steps[0]) && NoneUncovers(Next(s, steps[0]), steps[1..]))
  }

  ghost predicate AllKeepEvents(s: State, steps: seq<Step>)
    decreases |steps|
  {
    steps == [] || (KeepsEvents(s, Next(s, steps[0])) && AllKeepEvents(Next(s, steps[0]), steps[1..]))
  }

  /** A run loses nothing at any step exactly when no step acknowledges a last copy. */
  lemma {:induction false} RunKeepsIff(s: State, steps: seq<Step>)
    requires Inv(s)
    ensures AllKeepEvents(s, steps) <==> NoneUncovers(s, steps)
    ensures AllKeepEvents(s, steps) ==> Inv(Run(s, steps))
    decreases |steps|
  {
    hide Inv, KeepsEvents, Uncovers, Next;
    if steps != [] {
      StepKeepsIff(s, steps[0]);
      if KeepsEvents(s, Next(s, steps[0])) {
        RunKeepsIff(Next(s, steps[0]), steps[1..]);
      }
    }
  }

  /** What holds of headers and sessions whatever is lost. */
  ghost predicate HeadersOk(s: State) {
    && s.handled <= s.markers
    && (forall m | m in s.events || m in s.retry || m in s.dead :: Limited(m))
    && (forall c | c in s.consumers :: ConsumerOk(s, s.consumers[c]))
  }

  lemma ConsumersCarry(s: State, t: State)
    requires s.handled <= t.handled && s.markers <= t.markers
    ensures forall d :: ConsumerOk(s, d) ==> ConsumerOk(t, d)
  {
  }

  lemma ConsumeKeepsHeaders(s: State, c: nat, step: ConsumerStep)
    requires HeadersOk(s) && c in s.consumers
    ensures HeadersOk(NextConsume(s, c, step))
  {
    hide ConsumerOk, Limited, NextConsumer, NextEvents, NextRetry, NextDead;
    var d := s.consumers[c];
    var t := NextConsume(s, c, step);
    if CanConsume(s, d, step) {
      hide CanConsume;
      ConsumersCarry(s, t);
      ConsumerStaysOk(s, t, d, step);
      forall m | m in t.events || m in t.retry || m in t.dead ensures Limited(m) {
        QueuesStayLimited(s, d, step, m);
      }
      HandledHasMarker(s, c, step);
    }
  }

  lemma PublishKeepsHeaders(s: State, p: nat, step: PublisherStep)
    requires HeadersOk(s) && p in s.publishers
    ensures HeadersOk(NextPublish(s, p, step))
  {
    hide ConsumerOk, NextPublisher;
    ConsumersCarry(s, NextPublish(s, p, step));
  }

  /** Steps that leave sessions alone and only move messages, or add a limited one. */
  lemma HeadersCarry(s: State, t: State)
    requires HeadersOk(s) && t.handled == s.handled && t.markers == s.markers && t.consumers == s.consumers
    requires forall m | m in t.events || m in t.retry || m in t.dead ::
               m in s.events || m in s.retry || m in s.dead || Limited(m)
    ensures HeadersOk(t)
  {
    hide ConsumerOk, Limited;
    ConsumersCarry(s, t);
  }

  lemma ForeignKeepsHeaders(s: State, m: Message)
    requires HeadersOk(s)
    ensures HeadersOk(Next(s, Foreign(m)))
  {
    hide HeadersOk;
    HeadersCarry(s, Next(s, Foreign(m)));
  }

  lemma ExpiryKeepsHeaders(s: State, m: Message)
    requires HeadersOk(s)
    ensures HeadersOk(Next(s, ExpireRetry(m)))
  {
    hide HeadersOk, Limited;
    HeadersCarry(s, Next(s, ExpireRetry(m)));
  }

  lemma OpenKeepsHeaders(s: State, c: nat)
    requires HeadersOk(s) && c !in s.consumers
    ensures HeadersOk(Next(s, OpenConsumer(c)))
  {
    hide ConsumerOk, Limited;
    ConsumersCarry(s, Next(s, OpenConsumer(c)));
    FreshConsumerOk(Next(s, OpenConsumer(c)));
  }

  lemma StepKeepsHeaders(s: State, step: Step)
    requires HeadersOk(s)
    ensures HeadersOk(Next(s, step))
  {
    hide HeadersOk, NextPublish, NextConsume, Limited;
    match step {
      case CommitEvent(id) => HeadersCarry(s, Next(s, step));
      case Foreign(m) => ForeignKeepsHeaders(s, m);
      case ExpireRetry(m) => ExpiryKeepsHeaders(s, m);
      case OpenPublisher(p) => HeadersCarry(s, Next(s, step));
      case OpenConsumer(c) => if c !in s.consumers { OpenKeepsHeaders(s, c); }
      case PublisherDoes(p, doing) => if p in s.publishers { PublishKeepsHeaders(s, p, doing); }
      case ConsumerDoes(c, action) => if c in s.consumers { ConsumeKeepsHeaders(s, c, action); }
    }
  }

  lemma FreshConsumerOk(s: State)
    ensures ConsumerOk(s, Consumer(Idle, [], [], {}, map[], []))
  {
  }

  lemma {:induction false} RunKeepsHeaders(s: State, steps: seq<Step>)
    requires HeadersOk(s)
    ensures HeadersOk(Run(s, steps))
    decreases |steps|
  {
    hide HeadersOk, Next;
    if steps != [] {
      StepKeepsHeaders(s, steps[0]);
      RunKeepsHeaders(Next(s, steps[0]), steps[1..]);
    }
  }

  /** In every run, whatever fails or is lost, no attempt header is ever above three. */
  lemma AttemptsStayLimited(steps: seq<Step>, m: Message)
    requires Present(Run(INIT, steps), m)
    ensures m.attempt <= 3
  {
    var s := Run(INIT, steps);
    RunKeepsHeaders(INIT, steps);
    if m !in s.events && m !in s.retry && m !in s.dead {
      var c :| Unacks(s, c, m);
      assert ConsumerOk(s, s.consumers[c]);
    }
    assert Limited(m);
  }

  // ---------------------------------------------------------------------------------------------
  // What a dead letter has been through
  // ---------------------------------------------------------------------------------------------

  /** Some session has published this message to the retry queue, and it got there. */
  ghost predicate RetryRouted(s: State, c: nat, tag: nat, m: Message) {
    c in s.consumers && tag < |s.consumers[c].retries| && s.consumers[c].retries[tag] == m &&
    tag in s.consumers[c].fates && s.consumers[c].fates[tag] == Routed
  }

  ghost predicate WasRetried(s: State, m: Message) {
    exists c, tag :: RetryRouted(s, c, tag, m)
  }

  /** The header counts the retries before: one for each smaller attempt and for this one. */
  ghost predicate Earned(s: State, m: Message) {
    forall j | 1 <= j <= m.attempt :: WasRetried(s, m.(attempt := j))
  }

  ghost predicate EarnedBy(s: State, d: Consumer) {
    && (forall m | m in d.prefetched || m in Current(d) :: Earned(s, m))
    && (forall m | m in d.retries :: m.attempt >= 1 && Earned(s, m.(attempt := m.attempt - 1)))
  }

  /** Given up: it cannot be parsed, or it has come with header 3. */
  ghost predicate GivenUp(m: Message) {
    m.body.None? || m.attempt == 3
  }

  ghost predicate HistoryOk(s: State) {
    && (forall m | m in s.events || m in s.retry || m in s.dead :: Earned(s, m))
    && (forall m | m in s.dead :: GivenUp(m))
    && (forall c | c in s.consumers :: EarnedBy(s, s.consumers[c]))
  }

  /** Retries and what became of them are never forgotten. */
  ghost predicate Remembers(s: State, t: State) {
    forall c, tag, m | RetryRouted(s, c, tag, m) :: RetryRouted(t, c, tag, m)
  }

  lemma EarnedStays(s: State, t: State)
    requires Remembers(s, t)
    ensures forall m :: Earned(s, m) ==> Earned(t, m)
    ensures forall d :: EarnedBy(s, d) ==> EarnedBy(t, d)
  {
    hide RetryRouted;
    forall m | WasRetried(s, m) ensures WasRetried(t, m) {
      var c, tag :| RetryRouted(s, c, tag, m);
      assert RetryRouted(t, c, tag, m);
    }
  }

  lemma ConsumeRemembers(s: State, c: nat, step: ConsumerStep)
    requires c in s.consumers && TagsOk(s.consumers[c])
    ensures Remembers(s, NextConsume(s, c, step))
  {
    hide NextEvents, NextRetry, NextDead;
    var t := NextConsume(s, c, step);
    if CanConsume(s, s.consumers[c], step) {
      SessionRemembers(s, s.consumers[c], step);
    }
  }

  lemma SessionRemembers(s: State, d: Consumer, step: ConsumerStep)
    requires CanConsume(s, d, step) && TagsOk(d)
    ensures var e := NextConsumer(s, d, step);
            && d.retries <= e.retries
            && forall tag | tag in d.fates :: tag in e.fates && e.fates[tag] == d.fates[tag]
  {
  }

  /** A routed retry has earned its header. */
  lemma RoutedIsEarned(s: State, c: nat, tag: nat)
    requires c in s.consumers && CanConsume(s, s.consumers[c], HandleRetry(tag, Routed)) && HistoryOk(s)
    requires Remembers(s, NextConsume(s, c, HandleRetry(tag, Routed)))
    ensures Earned(NextConsume(s, c, HandleRetry(tag, Routed)), s.consumers[c].retries[tag])
  {
    var t := NextConsume(s, c, HandleRetry(tag, Routed));
    var m := s.consumers[c].retries[tag];
    assert EarnedBy(s, s.consumers[c]);
    assert RetryRouted(t, c, tag, m);
    EarnedStays(s, t);
    assert Earned(t, m.(attempt := m.attempt - 1));
    forall j | 1 <= j <= m.attempt ensures WasRetried(t, m.(attempt := j)) {
      assert j == m.attempt ==> m.(attempt := j) == m;
      assert j < m.attempt ==> m.(attempt := j) == m.(attempt := m.attempt - 1).(attempt := j);
    }
  }

  lemma SessionStaysEarned(s: State, t: State, d: Consumer, step: ConsumerStep)
    requires CanConsume(s, d, step) && EarnedBy(t, d) && forall m | m in s.events :: Earned(t, m)
    ensures EarnedBy(t, NextConsumer(s, d, step))
  {
    hide Earned;
    assert step.Recover? ==> d.phase.message.(attempt := d.phase.message.attempt + 1).
                               (attempt := d.phase.message.attempt) == d.phase.message;
  }

  lemma DeadIsGivenUp(s: State, d: Consumer, step: ConsumerStep)
    requires CanConsume(s, d, step) && MessagesOk(d) && forall m | m in s.dead :: GivenUp(m)
    ensures forall m | m in NextDead(s, d, step) :: GivenUp(m)
  {
    if !d.phase.Idle? && !d.phase.Gone? {
      assert d.phase.message in Current(d) && Limited(d.phase.message);
    }
  }

  lemma QueuesStayEarned(s: State, t: State, d: Consumer, step: ConsumerStep)
    requires CanConsume(s, d, step) && EarnedBy(t, d)
    requires forall m | m in s.events || m in s.retry || m in s.dead :: Earned(t, m)
    requires step.HandleRetry? && step.fate == Routed ==> Earned(t, d.retries[step.tag])
    ensures forall m | m in NextEvents(s, d, step) || m in NextRetry(s, d, step) || m in NextDead(s, d, step) ::
              Earned(t, m)
  {
    hide CanConsume, NextEvents, NextDead, Earned;
    forall m | m in NextEvents(s, d, step) ensures Earned(t, m) { EventsFrom(s, d, step, m); }
    forall m | m in NextDead(s, d, step) ensures Earned(t, m) { DeadFrom(s, d, step, m); }
  }

  lemma ConsumeKeepsHistory(s: State, c: nat, step: ConsumerStep)
    requires HeadersOk(s) && HistoryOk(s) && c in s.consumers
    ensures HistoryOk(NextConsume(s, c, step))
  {
    hide CanConsume, NextConsumer, NextEvents, NextRetry, NextDead, Earned, GivenUp, TagsOk, StageOk, EarnedBy;
    var d := s.consumers[c];
    var t := NextConsume(s, c, step);
    assert ConsumerOk(s, d);
    ConsumeRemembers(s, c, step);
    hide HeadersOk, Remembers;
    if CanConsume(s, d, step) {
      EarnedStays(s, t);
      SessionStaysEarned(s, t, d, step);
      DeadIsGivenUp(s, d, step);
      if step.HandleRetry? && step.fate == Routed {
        RoutedIsEarned(s, c, step.tag);
      }
      QueuesStayEarned(s, t, d, step);
    }
  }

  /** Nothing is new in the queues but messages without a header, and no session but a fresh one. */
  ghost predicate AddsNoHeader(s: State, t: State) {
    && s.consumers.Keys <= t.consumers.Keys && t.dead == s.dead
    && (forall c | c in s.consumers :: t.consumers[c] == s.consumers[c])
    && (forall c | c in t.consumers && c !in s.consumers :: t.consumers[c] == Consumer(Idle, [], [], {}, map[], []))
    && (forall m | m in t.events || m in t.retry :: m in s.events || m in s.retry || m.attempt == 0)
  }

  lemma PublishersAddNoHeader(s: State, p: nat, step: PublisherStep)
    requires p in s.publishers
    ensures AddsNoHeader(s, NextPublish(s, p, step))
  {
    hide NextPublisher;
  }

  lemma ForeignAddsNoHeader(s: State, m: Message)
    ensures AddsNoHeader(s, Next(s, Foreign(m)))
  {
  }

  lemma ExpiryAddsNoHeader(s: State, m: Message)
    ensures AddsNoHeader(s, Next(s, ExpireRetry(m)))
  {
  }

  lemma OtherStepsAddNoHeader(s: State, step: Step)
    requires !step.ConsumerDoes?
    ensures AddsNoHeader(s, Next(s, step))
  {
    hide NextPublish;
    match step {
      case PublisherDoes(p, doing) => if p in s.publishers { PublishersAddNoHeader(s, p, doing); }
      case Foreign(m) => ForeignAddsNoHeader(s, m);
      case ExpireRetry(m) => ExpiryAddsNoHeader(s, m);
      case _ =>
    }
  }

  lemma NothingToEarn(t: State)
    ensures forall m: Message | m.attempt == 0 :: Earned(t, m)
    ensures EarnedBy(t, Consumer(Idle, [], [], {}, map[], []))
  {
  }

  lemma AddingNoHeaderRemembers(s: State, t: State)
    requires AddsNoHeader(s, t)
    ensures Remembers(s, t)
  {
  }

  lemma OtherStepsKeepHistory(s: State, step: Step)
    requires HistoryOk(s) && !step.ConsumerDoes?
    ensures HistoryOk(Next(s, step))
  {
    hide Next, Earned, EarnedBy, Remembers, GivenUp;
    var t := Next(s, step);
    OtherStepsAddNoHeader(s, step);
    AddingNoHeaderRemembers(s, t);
    EarnedStays(s, t);
    NothingToEarn(t);
  }

  lemma StepKeepsHistory(s: State, step: Step)
    requires HeadersOk(s) && HistoryOk(s)
    ensures HistoryOk(Next(s, step))
  {
    if step.ConsumerDoes? {
      hide HeadersOk, HistoryOk, NextConsume;
      if step.c in s.consumers {
        ConsumeKeepsHistory(s, step.c, step.action);
      }
    } else {
      OtherStepsKeepHistory(s, step);
    }
  }

  lemma {:induction false} RunKeepsHistory(s: State, steps: seq<Step>)
    requires HeadersOk(s) && HistoryOk(s)
    ensures HistoryOk(Run(s, steps))
    decreases |steps|
  {
    hide HeadersOk, HistoryOk, Next;
    if steps != [] {
      StepKeepsHeaders(s, steps[0]);
      StepKeepsHistory(s, steps[0]);
      RunKeepsHistory(Next(s, steps[0]), steps[1..]);
    }
  }

  /**
   In every run a dead letter cannot be parsed, or is an event that came back with header 3; and then it has
   been retried with headers 1, 2 and 3, each time by way of the retry queue.
   */
  lemma DeadLettersWereRetried(steps: seq<Step>, m: Message)
    requires m in Run(INIT, steps).dead
    ensures m.body.None? || m.attempt == 3
    ensures m.body.Some? ==> forall j | 1 <= j <= 3 :: WasRetried(Run(INIT, steps), Message(m.body, j))
  {
    RunKeepsHistory(INIT, steps);
    assert GivenUp(m);
  }

  /**
   Main result. At every moment of every run in which no last copy is acknowledged, a published event is
   processed, or a copy of it is in the events, retry or dead queue (ready or unacknowledged); and no attempt
   header is ever above three.
   */
  lemma NothingIsLost(steps: seq<Step>, id: EventId)
    requires NoneUncovers(INIT, steps)
    ensures var s := Run(INIT, steps);
            id in s.published && s.published[id] && id !in s.handled ==> exists m :: Present(s, m) && m.body == Some(id)
    ensures forall m | Present(Run(INIT, steps), m) :: m.attempt <= 3
  {
    var s := Run(INIT, steps);
    RunKeepsIff(INIT, steps);
    if id in s.published && s.published[id] && id !in s.handled {
      var m :| Copies(s, id, 0, m);
    }
    forall m | Present(s, m) ensures m.attempt <= 3 {
      AttemptsStayLimited(steps, m);
    }
  }

  // ---------------------------------------------------------------------------------------------
  // When the awaited retry has been routed
  // ---------------------------------------------------------------------------------------------

  /** A positive confirmation is taken only when the retry being waited for has itself been routed. */
  ghost predicate TrustsRouted(s: State, step: Step) {
    step.ConsumerDoes? && step.action.TakeRetryConfirm? && step.c in s.consumers ==>
      var d := s.consumers[step.c];
      d.phase.AwaitingConfirm? && d.confirms != [] && d.confirms[0].1 ==> AwaitedIsRouted(d)
  }

  ghost predicate AllTrustRouted(s: State, steps: seq<Step>)
    decreases |steps|
  {
    steps == [] || (TrustsRouted(s, steps[0]) && AllTrustRouted(Next(s, steps[0]), steps[1..]))
  }

  ghost predicate AllRetriesCovered(s: State) {
    forall c | c in s.consumers :: RetriesCovered(s, s.consumers[c])
  }

  lemma RetriesStayCovered(s: State, t: State, d: Consumer)
    requires KeepsCover(s, t) && RetriesCovered(s, d)
    ensures RetriesCovered(t, d)
  {
  }

  lemma ConsumerKeepsRetriesCovered(s: State, c: nat, step: ConsumerStep)
    requires c in s.consumers && ConsumerOk(s, s.consumers[c]) && RetriesCovered(s, s.consumers[c])
    requires KeepsCover(s, NextConsume(s, c, step))
    ensures var t := NextConsume(s, c, step); RetriesCovered(t, t.consumers[c])
  {
    hide Covered;
    var d := s.consumers[c];
    var t := NextConsume(s, c, step);
    RetriesStayCovered(s, t, d);
    if step.HandleRetry? && step.fate == Routed && CanConsume(s, d, step) {
      var m := d.retries[step.tag];
      assert m in d.retries && m in t.retry;
      PresentCovers(t, m);
    }
  }

  lemma PresentCovers(t: State, m: Message)
    requires m in t.retry && m.body.Some?
    ensures Covered(t, m.body.value, m.attempt)
  {
    assert Copies(t, m.body.value, m.attempt, m);
  }

  lemma TrustingStepKeeps(s: State, step: Step)
    requires Inv(s) && AllRetriesCovered(s) && TrustsRouted(s, step)
    ensures !Uncovers(s, step) && Inv(Next(s, step)) && AllRetriesCovered(Next(s, step))
  {
    hide Inv, Covered, NextPublish, NextConsume, LastCopy, RetriesCovered, ConsumerOk;
    var t := Next(s, step);
    if !(step.ConsumerDoes? && step.action.TakeRetryConfirm?) {
      OtherStepsKeep(s, step);
    } else if step.c in s.consumers {
      var d := s.consumers[step.c];
      ConsumersAreOk(s, step.c);
      if CanConsume(s, d, TakeRetryConfirm) && d.confirms[0].1 {
        RoutedRetryCovers(s, step.c);
      } else {
        NegativeConfirmKeeps(s, step.c);
      }
      StepKeepsIff(s, step);
    }
    assert KeepsCover(s, t);
    OtherConsumersStay(s, step);
    forall c | c in t.consumers ensures RetriesCovered(t, t.consumers[c]) {
      if c in s.consumers {
        if step.ConsumerDoes? && step.c == c {
          ConsumersAreOk(s, c);
          ConsumerKeepsRetriesCovered(s, c, step.action);
        } else {
          RetriesStayCovered(s, t, s.consumers[c]);
        }
      } else {
        FreshRetriesCovered(t);
      }
    }
  }

  lemma FreshRetriesCovered(t: State)
    ensures RetriesCovered(t, Consumer(Idle, [], [], {}, map[], []))
  {
  }

  lemma OtherConsumersStay(s: State, step: Step)
    ensures var t := Next(s, step);
            && (forall c | c in s.consumers && !(step.ConsumerDoes? && step.c == c) ::
                  c in t.consumers && t.consumers[c] == s.consumers[c])
            && (forall c | c in t.consumers && c !in s.consumers ::
                  t.consumers[c] == Consumer(Idle, [], [], {}, map[], []))
  {
    hide NextConsumer, NextPublisher, CanConsume;
  }

  lemma {:induction false} TrustingRunsKeep(s: State, steps: seq<Step>)
    requires Inv(s) && AllRetriesCovered(s) && AllTrustRouted(s, steps)
    ensures NoneUncovers(s, steps)
    decreases |steps|
  {
    hide Inv, AllRetriesCovered, TrustsRouted, Uncovers, Next;
    if steps != [] {
      TrustingStepKeeps(s, steps[0]);
      TrustingRunsKeep(Next(s, steps[0]), steps[1..]);
    }
  }

  // ---------------------------------------------------------------------------------------------
  // Marking rows as published
  // ---------------------------------------------------------------------------------------------

  ghost predicate PublishersOk(s: State) {
    forall p | p in s.publishers :: ChannelOk(s.publishers[p]) && PhaseOk(s.publishers[p])
  }

  lemma PublishersStayOk(s: State, step: Step)
    requires PublishersOk(s)
    ensures PublishersOk(Next(s, step))
  {
    hide NextConsume, NextPublish, ChannelOk, PhaseOk;
    if step.PublisherDoes? && step.p in s.publishers {
      OtherPublishersStay(s, step.p, step.doing);
      PublisherStaysOk(s, step.p, step.doing);
    } else if step.OpenPublisher? {
      FreshPublisherOk();
    } else if step.ConsumerDoes? && step.c in s.consumers {
      ConsumersLeavePublishers(s, step.c, step.action);
    }
  }

  lemma OtherPublishersStay(s: State, p: nat, step: PublisherStep)
    requires p in s.publishers
    ensures var t := NextPublish(s, p, step); p in t.publishers && t.publishers == s.publishers[p := t.publishers[p]]
  {
  }

  lemma FreshPublisherOk()
    ensures var q := Publisher(Polling, [], {}, map[], [], [], 0); ChannelOk(q) && PhaseOk(q)
  {
  }

  lemma ConsumersLeavePublishers(s: State, c: nat, step: ConsumerStep)
    requires c in s.consumers
    ensures var t := NextConsume(s, c, step); t.publishers == s.publishers && t.published == s.published
  {
  }

  lemma PublisherStaysOk(s: State, p: nat, step: PublisherStep)
    requires p in s.publishers && ChannelOk(s.publishers[p]) && PhaseOk(s.publishers[p])
    ensures var q := NextPublish(s, p, step).publishers[p]; ChannelOk(q) && PhaseOk(q)
  {
    var q := s.publishers[p];
    if !step.Handle? {
      PublisherKeeps(s, q, step);
    } else if step.tag in q.unhandled {
      HandleKeeps(q, step.tag, step.fate);
      PhaseStays(q, NextPublish(s, p, step).publishers[p]);
    }
  }

  lemma {:induction false} RunKeepsPublishersOk(s: State, steps: seq<Step>)
    requires PublishersOk(s)
    ensures PublishersOk(Run(s, steps))
    decreases |steps|
  {
    hide PublishersOk, Next;
    if steps != [] {
      PublishersStayOk(s, steps[0]);
      RunKeepsPublishersOk(Next(s, steps[0]), steps[1..]);
    }
  }

  /** The session published the event under a tag that the broker routed: acknowledged, never returned. */
  ghost predicate RoutedBy(q: Publisher, id: EventId) {
    exists tag :: 0 <= tag < |q.sent| && q.sent[tag] == id && Delivered(q, tag)
  }

  /** In every run, a row becomes published only by the session that had its own copy of it routed. */
  lemma MarkedOnlyAfterOwnConfirm(steps: seq<Step>, step: Step, id: EventId)
    requires var s := Run(INIT, steps); var t := Next(s, step);
             id in s.published && !s.published[id] && id in t.published && t.published[id]
    ensures step.PublisherDoes? && step.doing.MarkPublished?
    ensures var s := Run(INIT, steps); step.p in s.publishers && RoutedBy(s.publishers[step.p], id)
  {
    var s := Run(INIT, steps);
    RunKeepsPublishersOk(INIT, steps);
    if step.ConsumerDoes? && step.c in s.consumers {
      ConsumersLeavePublishers(s, step.c, step.action);
    }
    var q := s.publishers[step.p];
    var i :| 0 <= i < |q.phase.batch| && q.phase.batch[i] == id;
    assert q.sent[q.phase.first + i] == id && Delivered(q, q.phase.first + i);
  }

  // ---------------------------------------------------------------------------------------------
  // Prompt confirmations
  // ---------------------------------------------------------------------------------------------

  /**
   The broker routes or refuses every retry, and does so while the consumer waits for it or after the session
   has died; and the consumer never gives up with a confirmation at hand.
   */
  ghost predicate Prompt(s: State, step: Step) {
    step.ConsumerDoes? && step.c in s.consumers ==>
      var d := s.consumers[step.c];
      && (step.action.HandleRetry? ==>
            d.phase.Gone? ||
            (d.phase.AwaitingConfirm? && d.phase.tag == step.action.tag && step.action.fate != Unroutable))
      && (step.action.GiveUpConfirm? ==> d.confirms == [])
  }

  ghost predicate AllPrompt(s: State, steps: seq<Step>)
    decreases |steps|
  {
    steps == [] || (Prompt(s, steps[0]) && AllPrompt(Next(s, steps[0]), steps[1..]))
  }

  ghost predicate InStep(d: Consumer) {
    && (forall tag | tag in d.unhandled :: tag < |d.retries|)
    && match d.phase
       case AwaitingConfirm(_, tag) =>
         tag < |d.retries| && (d.confirms == [] ||
           (|d.confirms| == 1 && tag !in d.unhandled && (d.confirms[0].1 ==> AwaitedIsRouted(d))))
       case Gone => true
       case _ => d.confirms == []
  }

  ghost predicate AllInStep(s: State) {
    forall c | c in s.consumers :: InStep(s.consumers[c])
  }

  lemma ConsumerStaysInStep(s: State, c: nat, step: ConsumerStep)
    requires c in s.consumers && InStep(s.consumers[c]) && Prompt(s, ConsumerDoes(c, step))
    ensures InStep(NextConsume(s, c, step).consumers[c])
  {
  }

  lemma PublishersLeaveConsumers(s: State, p: nat, step: PublisherStep)
    requires p in s.publishers
    ensures NextPublish(s, p, step).consumers == s.consumers
  {
  }

  lemma StaysInStep(s: State, step: Step)
    requires AllInStep(s) && Prompt(s, step)
    ensures AllInStep(Next(s, step))
  {
    hide InStep, Prompt, NextPublish;
    if step.ConsumerDoes? && step.c in s.consumers {
      ConsumerStaysInStep(s, step.c, step.action);
    } else if step.PublisherDoes? && step.p in s.publishers {
      PublishersLeaveConsumers(s, step.p, step.doing);
    } else if step.OpenConsumer? {
      assert InStep(Consumer(Idle, [], [], {}, map[], [])) by { FreshConsumerInStep(); }
    }
  }

  lemma FreshConsumerInStep()
    ensures InStep(Consumer(Idle, [], [], {}, map[], []))
  {
  }

  /** With no confirmation after its wait and no unroutable retry, every positive one taken is the awaited retry's. */
  lemma {:induction false} PromptConfirmsAreRouted(s: State, steps: seq<Step>)
    requires AllInStep(s) && AllPrompt(s, steps)
    ensures AllTrustRouted(s, steps)
    decreases |steps|
  {
    hide Next, Prompt;
    if steps != [] {
      StaysInStep(s, steps[0]);
      PromptConfirmsAreRouted(Next(s, steps[0]), steps[1..]);
    }
  }

  /** Where the five-second waits are long enough and the retry queue exists, nothing is lost. */
  lemma NothingIsLostWhenPrompt(steps: seq<Step>, id: EventId)
    requires AllPrompt(INIT, steps)
    ensures var s := Run(INIT, steps);
            id in s.published && s.published[id] && id !in s.handled ==> exists m :: Present(s, m) && m.body == Some(id)
  {
    PromptConfirmsAreRouted(INIT, steps);
    TrustingRunsKeep(INIT, steps);
    NothingIsLost(steps, id);
  }

  // ---------------------------------------------------------------------------------------------
  // How much is under way
  // ---------------------------------------------------------------------------------------------

  function Batch(phase: PublisherPhase): seq<EventId> {
    match phase
    case Publishing(batch, _, _) => batch
    case Confirming(batch, _, _) => batch
    case Marking(batch, _) => batch
    case _ => []
  }

  ghost predicate Bounded(s: State) {
    && (forall p | p in s.publishers :: |Batch(s.publishers[p].phase)| <= 128)
    && (forall c | c in s.consumers :: |s.consumers[c].prefetched| + |Current(s.consumers[c])| <= 4)
  }

  lemma ConsumerStaysBounded(s: State, d: Consumer, step: ConsumerStep)
    requires CanConsume(s, d, step) && |d.prefetched| + |Current(d)| <= 4
    ensures var e := NextConsumer(s, d, step); |e.prefetched| + |Current(e)| <= 4
  {
  }

  lemma PublisherStaysBounded(s: State, q: Publisher, step: PublisherStep)
    requires |Batch(q.phase)| <= 128
    ensures |Batch(NextPublisher(s, q, step).phase)| <= 128
  {
  }

  lemma ConsumeKeepsBounded(s: State, c: nat, step: ConsumerStep)
    requires Bounded(s) && c in s.consumers
    ensures Bounded(NextConsume(s, c, step))
  {
    hide CanConsume, NextConsumer, NextEvents, NextRetry, NextDead, Batch, Current;
    if CanConsume(s, s.consumers[c], step) {
      ConsumerStaysBounded(s, s.consumers[c], step);
    }
  }

  lemma PublishKeepsBounded(s: State, p: nat, step: PublisherStep)
    requires Bounded(s) && p in s.publishers
    ensures Bounded(NextPublish(s, p, step))
  {
    hide NextPublisher, Batch, Current;
    PublisherStaysBounded(s, s.publishers[p], step);
  }

  lemma StepKeepsBounded(s: State, step: Step)
    requires Bounded(s)
    ensures Bounded(Next(s, step))
  {
    hide NextConsume, NextPublish;
    if step.ConsumerDoes? && step.c in s.consumers {
      ConsumeKeepsBounded(s, step.c, step.action);
    } else if step.PublisherDoes? && step.p in s.publishers {
      PublishKeepsBounded(s, step.p, step.doing);
    }
  }

  lemma {:induction false} RunKeepsBounded(s: State, steps: seq<Step>)
    requires Bounded(s)
    ensures Bounded(Run(s, steps))
    decreases |steps|
  {
    hide Bounded, Next;
    if steps != [] {
      StepKeepsBounded(s, steps[0]);
      RunKeepsBounded(Next(s, steps[0]), steps[1..]);
    }
  }

  /** In every run no batch has more than 128 events, and no session more than four messages to acknowledge. */
  lemma NoMoreThanAllowed(steps: seq<Step>)
    ensures forall p | p in Run(INIT, steps).publishers :: |Batch(Run(INIT, steps).publishers[p].phase)| <= 128
    ensures forall c | c in Run(INIT, steps).consumers ::
              |Run(INIT, steps).consumers[c].prefetched| + |Current(Run(INIT, steps).consumers[c])| <= 4
  {
    RunKeepsBounded(INIT, steps);
  }

  // ---------------------------------------------------------------------------------------------
  // One message on its own
  // ---------------------------------------------------------------------------------------------

  function Perform(s: State, c: nat, actions: seq<ConsumerStep>): State
    decreases |actions|
  {
    if actions == [] then s else Perform(Next(s, ConsumerDoes(c, actions[0])), c, actions[1..])
  }

  lemma PerformFirst(s: State, c: nat, action: ConsumerStep, rest: seq<ConsumerStep>)
    ensures Perform(s, c, [action] + rest) == Perform(Next(s, ConsumerDoes(c, action)), c, rest)
  {
    assert ([action] + rest)[1..] == rest;
  }

  lemma PerformTwo(s: State, c: nat, a: ConsumerStep, b: ConsumerStep, rest: seq<ConsumerStep>)
    ensures Perform(s, c, [a, b] + rest) == Perform(Next(Next(s, ConsumerDoes(c, a)), ConsumerDoes(c, b)), c, rest)
  {
    hide Next;
    assert [a, b] + rest == [a] + ([b] + rest);
    PerformFirst(s, c, a, [b] + rest);
    PerformFirst(Next(s, ConsumerDoes(c, a)), c, b, rest);
  }

  /** The session has become this one; of the rest of the state nothing is said. */
  ghost predicate Becomes(s: State, t: State, c: nat, d: Consumer) {
    c in s.consumers && c in t.consumers && t.consumers[c] == d
  }

  lemma TakesAlone(s: State, c: nat, m: Message)
    requires c in s.consumers && s.consumers[c].phase.Idle? && s.consumers[c].prefetched == [] && m in s.events
    ensures var t := Next(Next(s, ConsumerDoes(c, Deliver(m))), ConsumerDoes(c, Take));
            Becomes(s, t, c, s.consumers[c].(phase := Handling(m))) &&
            t == s.(consumers := t.consumers, events := s.events - multiset{m})
  {
    assert [m][1..] == [] && [] + [m] == [m];
    var t := Next(s, ConsumerDoes(c, Deliver(m)));
    assert t.consumers[c] == s.consumers[c].(prefetched := [m]);
    DeliversAlone(s, c, m);
    hide NextConsume;
    var u := Next(t, ConsumerDoes(c, Take));
    TakesFirst(t, c, m);
  }

  lemma DeliversAlone(s: State, c: nat, m: Message)
    requires c in s.consumers && s.consumers[c].phase.Idle? && s.consumers[c].prefetched == [] && m in s.events
    ensures var t := NextConsume(s, c, Deliver(m));
            Becomes(s, t, c, s.consumers[c].(prefetched := [m])) &&
            t == s.(consumers := t.consumers, events := s.events - multiset{m})
  {
  }

  lemma TakesFirst(s: State, c: nat, m: Message)
    requires c in s.consumers && s.consumers[c].phase.Idle? && s.consumers[c].prefetched == [m]
    ensures var t := NextConsume(s, c, Take);
            Becomes(s, t, c, s.consumers[c].(phase := Handling(m), prefetched := [])) &&
            t == s.(consumers := t.consumers)
  {
  }

  lemma MarksAlone(s: State, c: nat, m: Message, ok: bool)
    requires c in s.consumers && s.consumers[c].phase == Handling(m)
    ensures var t := Next(s, ConsumerDoes(c, CommitMarker(ok)));
            var phase := if m.body.None? then Idle else if ok then Relaying(m) else Failing(m);
            Becomes(s, t, c, s.consumers[c].(phase := phase)) &&
            t == s.(consumers := t.consumers,
                    dead := if m.body.None? then s.dead + multiset{m} else s.dead,
                    markers := if m.body.Some? && ok then s.markers + {m.body.value} else s.markers)
  {
  }

  lemma RelaysAlone(s: State, c: nat, m: Message, ok: bool)
    requires c in s.consumers && s.consumers[c].phase == Relaying(m) && m.body.Some?
    ensures var t := Next(Next(s, ConsumerDoes(c, Relay(ok))), ConsumerDoes(c, Acknowledge));
            Becomes(s, t, c, s.consumers[c].(phase := if ok then Idle else Failing(m))) &&
            t == s.(consumers := t.consumers, handled := if ok then s.handled + {m.body.value} else s.handled)
  {
    var t := Next(s, ConsumerDoes(c, Relay(ok)));
    assert t.consumers[c] == s.consumers[c].(phase := if ok then Acking(m) else Failing(m));
    if !ok {
      NotReady(t, c, Acknowledge);
    }
  }

  lemma RecoversAlone(s: State, c: nat, m: Message, sent: bool)
    requires c in s.consumers && s.consumers[c].phase == Failing(m)
    ensures var d := s.consumers[c];
            var t := Next(s, ConsumerDoes(c, Recover(sent)));
            var tag := |d.retries|;
            Becomes(s, t, c, if m.attempt >= 3 then d.(phase := Idle)
                             else if !sent then d.(phase := Requeueing(m))
                             else d.(phase := AwaitingConfirm(m, tag), unhandled := d.unhandled + {tag},
                                     retries := d.retries + [m.(attempt := m.attempt + 1)])) &&
            t == s.(consumers := t.consumers, dead := if m.attempt >= 3 then s.dead + multiset{m} else s.dead)
  {
  }

  lemma BrokerAnswersAlone(s: State, c: nat, tag: nat, fate: Fate)
    requires c in s.consumers && tag in s.consumers[c].unhandled && tag < |s.consumers[c].retries|
    requires s.consumers[c].confirms == []
    ensures var d := s.consumers[c];
            var t := Next(s, ConsumerDoes(c, HandleRetry(tag, fate)));
            && c in t.consumers && t.consumers[c].confirms == [(tag, fate != Refused)]
            && t.consumers[c].phase == d.phase && t.consumers[c].prefetched == d.prefetched
            && t.consumers[c].retries == d.retries
            && t == s.(consumers := t.consumers,
                       retry := if fate == Routed then s.retry + multiset{d.retries[tag]} else s.retry)
  {
  }

  lemma ConfirmsAlone(s: State, c: nat, m: Message, tag: nat, ack: bool)
    requires c in s.consumers && s.consumers[c].phase == AwaitingConfirm(m, tag)
    requires s.consumers[c].confirms == [(tag, ack)]
    ensures var t := Next(s, ConsumerDoes(c, TakeRetryConfirm));
            Becomes(s, t, c, s.consumers[c].(phase := if ack then Idle else Requeueing(m), confirms := [])) &&
            t == s.(consumers := t.consumers)
  {
  }

  lemma RequeuesAlone(s: State, c: nat, m: Message)
    requires c in s.consumers && s.consumers[c].phase == Requeueing(m)
    ensures var t := Next(s, ConsumerDoes(c, Requeue));
            Becomes(s, t, c, s.consumers[c].(phase := Idle)) &&
            t == s.(consumers := t.consumers, events := s.events + multiset{m})
  {
  }

  /** An action the session is not ready for changes nothing. */
  lemma NotReady(s: State, c: nat, action: ConsumerStep)
    requires c in s.consumers && !CanConsume(s, s.consumers[c], action)
    ensures Next(s, ConsumerDoes(c, action)) == s
  {
  }

  function Recovery(sent: bool, tag: nat, fate: Fate): seq<ConsumerStep> {
    [Recover(sent), HandleRetry(tag, fate)] + ([TakeRetryConfirm, Requeue] + [])
  }

  function Recovered(s: State, c: nat, sent: bool, tag: nat, fate: Fate): State {
    var answered := Next(Next(s, ConsumerDoes(c, Recover(sent))), ConsumerDoes(c, HandleRetry(tag, fate)));
    Next(Next(answered, ConsumerDoes(c, TakeRetryConfirm)), ConsumerDoes(c, Requeue))
  }

  lemma RecoveryPerformed(s: State, c: nat, sent: bool, tag: nat, fate: Fate)
    ensures Perform(s, c, Recovery(sent, tag, fate)) == Recovered(s, c, sent, tag, fate)
  {
    hide Next;
    PerformTwo(s, c, Recover(sent), HandleRetry(tag, fate), [TakeRetryConfirm, Requeue] + []);
    var answered := Next(Next(s, ConsumerDoes(c, Recover(sent))), ConsumerDoes(c, HandleRetry(tag, fate)));
    PerformTwo(answered, c, TakeRetryConfirm, Requeue, []);
  }

  lemma RecoveryUnneeded(s: State, c: nat, sent: bool, tag: nat, fate: Fate)
    requires c in s.consumers && s.consumers[c].phase.Idle? && tag >= |s.consumers[c].retries|
    ensures Recovered(s, c, sent, tag, fate) == s
  {
    hide Next;
    NotReady(s, c, Recover(sent));
    NotReady(s, c, HandleRetry(tag, fate));
    NotReady(s, c, TakeRetryConfirm);
    NotReady(s, c, Requeue);
  }

  /** A failed message with header 3 is rejected; one that is not sent again goes back to the queue. */
  lemma GivesUpAlone(s: State, c: nat, m: Message, sent: bool, tag: nat, fate: Fate)
    requires c in s.consumers && s.consumers[c].phase == Failing(m) && (m.attempt >= 3 || !sent)
    requires tag == |s.consumers[c].retries|
    ensures var t := Recovered(s, c, sent, tag, fate);
            Becomes(s, t, c, s.consumers[c].(phase := Idle)) &&
            t.(consumers := s.consumers) ==
            if m.attempt >= 3 then s.(dead := s.dead + multiset{m}) else s.(events := s.events + multiset{m})
  {
    hide Next;
    var t := Next(s, ConsumerDoes(c, Recover(sent)));
    RecoversAlone(s, c, m, sent);
    NotReady(t, c, HandleRetry(tag, fate));
    NotReady(t, c, TakeRetryConfirm);
    if m.attempt >= 3 {
      NotReady(t, c, Requeue);
    } else {
      RequeuesAlone(t, c, m);
    }
  }

  /** A retry carries the next header; the broker's answer decides between the retry and the message itself. */
  lemma RetriesAlone(s: State, c: nat, m: Message, tag: nat, fate: Fate)
    requires c in s.consumers && s.consumers[c].phase == Failing(m) && m.attempt < 3
    requires tag == |s.consumers[c].retries| && s.consumers[c].confirms == [] && s.consumers[c].prefetched == []
    ensures var t := Recovered(s, c, true, tag, fate);
            && Rests(t, c, tag + 1) && t.(consumers := s.consumers) == AfterFailure(s, m, true, fate)
  {
    hide Next;
    var sent := Next(s, ConsumerDoes(c, Recover(true)));
    RecoversAlone(s, c, m, true);
    BrokerAnswersAlone(sent, c, tag, fate);
    var answered := Next(sent, ConsumerDoes(c, HandleRetry(tag, fate)));
    ConfirmsAlone(answered, c, m, tag, fate != Refused);
    var taken := Next(answered, ConsumerDoes(c, TakeRetryConfirm));
    if fate == Refused {
      RequeuesAlone(taken, c, m);
    } else {
      NotReady(taken, c, Requeue);
    }
  }

  /** The session has nothing to do and has published `tag` retries. */
  predicate Rests(s: State, c: nat, tag: nat) {
    && c in s.consumers && s.consumers[c].phase.Idle?
    && s.consumers[c].prefetched == [] && s.consumers[c].confirms == [] && |s.consumers[c].retries| == tag
  }

  function OneMessage(m: Message, dbUp: bool, relayed: bool, sent: bool, tag: nat, fate: Fate): seq<ConsumerStep> {
    [Deliver(m), Take] + ([CommitMarker(dbUp)] + ([Relay(relayed), Acknowledge] + Recovery(sent, tag, fate)))
  }

  /** What one session makes of a message it failed to process. */
  function AfterFailure(s: State, m: Message, sent: bool, fate: Fate): State {
    if m.attempt >= 3 then s.(dead := s.dead + multiset{m})
    else if !sent || fate == Refused then s.(events := s.events + multiset{m})
    else if fate == Routed then s.(retry := s.retry + multiset{m.(attempt := m.attempt + 1)})
    else s
  }

  /** The message is handled or unparsable and gone, or the session has it and has failed. */
  lemma ProcessesAlone(s: State, c: nat, m: Message, dbUp: bool, relayed: bool, rest: seq<ConsumerStep>)
    returns (t: State)
    requires c in s.consumers && s.consumers[c].phase.Idle? && s.consumers[c].prefetched == [] && m in s.events
    ensures Perform(s, c, [Deliver(m), Take] + ([CommitMarker(dbUp)] + ([Relay(relayed), Acknowledge] + rest))) ==
            Perform(t, c, rest)
    ensures var handled := m.body.Some? && dbUp && relayed;
            && Becomes(s, t, c, s.consumers[c].(phase := if handled || m.body.None? then Idle else Failing(m)))
            && t == s.(consumers := t.consumers, events := s.events - multiset{m},
                       markers := if m.body.Some? && dbUp then s.markers + {m.body.value} else s.markers,
                       handled := if handled then s.handled + {m.body.value} else s.handled,
                       dead := if m.body.None? then s.dead + multiset{m} else s.dead)
  {
    hide Perform, Next;
    var later := [Relay(relayed), Acknowledge] + rest;
    PerformTwo(s, c, Deliver(m), Take, [CommitMarker(dbUp)] + later);
    TakesAlone(s, c, m);
    var taken := Next(Next(s, ConsumerDoes(c, Deliver(m))), ConsumerDoes(c, Take));
    PerformFirst(taken, c, CommitMarker(dbUp), later);
    MarksAlone(taken, c, m, dbUp);
    var marked := Next(taken, ConsumerDoes(c, CommitMarker(dbUp)));
    PerformTwo(marked, c, Relay(relayed), Acknowledge, rest);
    if marked.consumers[c].phase.Relaying? {
      RelaysAlone(marked, c, m, relayed);
    } else {
      NotReady(marked, c, Relay(relayed));
      NotReady(marked, c, Acknowledge);
    }
    t := Next(Next(marked, ConsumerDoes(c, Relay(relayed))), ConsumerDoes(c, Acknowledge));
  }

  /**
   An idle session that takes a message, undisturbed, ends idle. A message it cannot parse is dead. An event
   whose marker commits and whose relay succeeds is handled. Any other is retried with the next header, or
   comes back, and after header 3 it is dead.
   */
  lemma OneMessageAlone(s: State, c: nat, m: Message, dbUp: bool, relayed: bool, sent: bool, tag: nat, fate: Fate)
    requires Rests(s, c, tag) && m in s.events
    ensures var t := Perform(s, c, OneMessage(m, dbUp, relayed, sent, tag, fate));
            var taken := s.(events := s.events - multiset{m},
                            markers := if m.body.Some? && dbUp then s.markers + {m.body.value} else s.markers);
            var retried := m.body.Some? && !(dbUp && relayed) && m.attempt < 3 && sent;
            && Rests(t, c, if retried then tag + 1 else tag)
            && t.(consumers := s.consumers) ==
               if m.body.None? then taken.(dead := s.dead + multiset{m})
               else if dbUp && relayed then taken.(handled := s.handled + {m.body.value})
               else AfterFailure(taken, m, sent, fate)
  {
    hide Perform, Recovered;
    var t := ProcessesAlone(s, c, m, dbUp, relayed, Recovery(sent, tag, fate));
    RecoveryPerformed(t, c, sent, tag, fate);
    if t.consumers[c].phase.Idle? {
      RecoveryUnneeded(t, c, sent, tag, fate);
    } else if m.attempt >= 3 || !sent {
      GivesUpAlone(t, c, m, sent, tag, fate);
    } else {
      RetriesAlone(t, c, m, tag, fate);
    }
  }

  /** The message is taken while the database is down, its retry is routed, and comes back when it expires. */
  function OneFailure(s: State, c: nat, m: Message, tag: nat): State {
    Next(Perform(s, c, OneMessage(m, false, false, true, tag, Routed)), ExpireRetry(m.(attempt := m.attempt + 1)))
  }

  lemma OneFailureAlone(s: State, c: nat, m: Message, tag: nat)
    requires Rests(s, c, tag) && m in s.events && m.body.Some? && m.attempt < 3
    ensures var t := OneFailure(s, c, m, tag);
            var again := m.(attempt := m.attempt + 1);
            && Rests(t, c, tag + 1)
            && t.(consumers := s.consumers) == s.(events := s.events - multiset{m} + multiset{again})
  {
    hide Perform, OneMessage;
    OneMessageAlone(s, c, m, false, false, true, tag, Routed);
    var again := m.(attempt := m.attempt + 1);
    assert s.retry + multiset{again} - multiset{again} == s.retry;
  }

  /** Four failures in a row turn a new message into one dead letter with header 3, and leave nothing else behind. */
  lemma FourFailuresKill(s: State, c: nat, m: Message, tag: nat)
    requires Rests(s, c, tag) && m in s.events && m.body.Some? && m.attempt == 0
    ensures var once := OneFailure(s, c, m, tag);
            var twice := OneFailure(once, c, m.(attempt := 1), tag + 1);
            var thrice := OneFailure(twice, c, m.(attempt := 2), tag + 2);
            var t := Perform(thrice, c, OneMessage(m.(attempt := 3), false, false, true, tag + 3, Routed));
            t.(consumers := s.consumers) ==
            s.(events := s.events - multiset{m}, dead := s.dead + multiset{m.(attempt := 3)})
  {
    hide OneFailure, Perform, OneMessage, Rests;
    OneFailureAlone(s, c, m, tag);
    var once := OneFailure(s, c, m, tag);
    OneFailureAlone(once, c, m.(attempt := 1), tag + 1);
    var twice := OneFailure(once, c, m.(attempt := 1), tag + 1);
    OneFailureAlone(twice, c, m.(attempt := 2), tag + 2);
    var thrice := OneFailure(twice, c, m.(attempt := 2), tag + 2);
    OneMessageAlone(thrice, c, m.(attempt := 3), false, false, true, tag + 3, Routed);
    var left := s.events - multiset{m};
    assert once.events == left + multiset{m.(attempt := 1)};
    assert twice.events == left + multiset{m.(attempt := 2)};
    assert thrice.events - multiset{m.(attempt := 3)} == left;
  }

  // ---------------------------------------------------------------------------------------------
  // One batch on its own
  // ---------------------------------------------------------------------------------------------

  function Publishes(s: State, p: nat, steps: seq<PublisherStep>): State
    decreases |steps|
  {
    if steps == [] then s else Publishes(Next(s, PublisherDoes(p, steps[0])), p, steps[1..])
  }

  lemma PublishesFirst(s: State, p: nat, step: PublisherStep, rest: seq<PublisherStep>)
    ensures Publishes(s, p, [step] + rest) == Publishes(Next(s, PublisherDoes(p, step)), p, rest)
  {
    assert ([step] + rest)[1..] == rest;
  }

  /** All the steps of a batch from the state in which `k` events have been published, routed or confirmed. */
  function PublishSteps(batch: seq<EventId>, k: nat, rest: seq<PublisherStep>): seq<PublisherStep>
    decreases |batch| - k
  {
    if k >= |batch| then rest else [Publish] + PublishSteps(batch, k + 1, rest)
  }

  function RouteSteps(batch: seq<EventId>, first: nat, k: nat, rest: seq<PublisherStep>): seq<PublisherStep>
    decreases |batch| - k
  {
    if k >= |batch| then rest
    else [Handle(first + k, Routed)] + ([Transmit] + RouteSteps(batch, first, k + 1, rest))
  }

  function ConfirmSteps(batch: seq<EventId>, k: nat, rest: seq<PublisherStep>): seq<PublisherStep>
    decreases |batch| - k
  {
    if k >= |batch| then rest else [TakeConfirm] + ConfirmSteps(batch, k + 1, rest)
  }

  function BatchSteps(batch: seq<EventId>, first: nat): seq<PublisherStep> {
    [Fetch(batch)] + PublishSteps(batch, 0, RouteSteps(batch, first, 0,
      ConfirmSteps(batch, 0, [CheckReturns] + ([MarkPublished] + []))))
  }

  function Messages(batch: seq<EventId>): multiset<Message> {
    if batch == [] then multiset{} else multiset{Message(Some(batch[0]), 0)} + Messages(batch[1..])
  }

  /** One publisher session changes; of the rest of the state only events and rows may. */
  ghost predicate SessionIs(s: State, p: nat, q: Publisher) {
    p in s.publishers && s.publishers[p] == q
  }

  ghost predicate Positive(confirms: seq<Frame>, first: nat, upTo: nat) {
    first <= upTo && |confirms| == upTo - first &&
    forall i | 0 <= i < |confirms| :: confirms[i] == ConfirmFrame(first + i, true)
  }

  function Tags(from: nat, upTo: nat): (tags: set<nat>)
    ensures forall tag :: tag in tags <==> from <= tag < upTo
    decreases upTo - from
  {
    if from >= upTo then {} else {from} + Tags(from + 1, upTo)
  }

  /** The session `q` when it has published `k` events of the batch. */
  function HalfPublished(q: Publisher, batch: seq<EventId>, k: nat): Publisher
    requires k <= |batch|
  {
    var first := |q.sent|;
    q.(sent := q.sent + batch[..k], unhandled := Tags(first, first + k),
       phase := if k < |batch| then Publishing(batch, first, k) else Confirming(batch, first, 0))
  }

  lemma PublishesOne(s: State, p: nat, q: Publisher, batch: seq<EventId>, k: nat)
    requires k < |batch| && SessionIs(s, p, HalfPublished(q, batch, k))
    ensures var t := Next(s, PublisherDoes(p, Publish));
            t == s.(publishers := t.publishers) && SessionIs(t, p, HalfPublished(q, batch, k + 1))
  {
    assert q.sent + batch[..k + 1] == q.sent + batch[..k] + [batch[k]];
    assert Tags(|q.sent|, |q.sent| + k + 1) == Tags(|q.sent|, |q.sent| + k) + {|q.sent| + k};
  }

  lemma {:induction false} PublishesAll(s: State, p: nat, q: Publisher, batch: seq<EventId>, k: nat,
                                        rest: seq<PublisherStep>)
    returns (t: State)
    requires k <= |batch| && SessionIs(s, p, HalfPublished(q, batch, k))
    ensures Publishes(s, p, PublishSteps(batch, k, rest)) == Publishes(t, p, rest)
    ensures t == s.(publishers := t.publishers) && SessionIs(t, p, HalfPublished(q, batch, |batch|))
    decreases |batch| - k
  {
    hide Publishes, Next, HalfPublished;
    t := s;
    if k < |batch| {
      PublishesFirst(s, p, Publish, PublishSteps(batch, k + 1, rest));
      PublishesOne(s, p, q, batch, k);
      t := PublishesAll(Next(s, PublisherDoes(p, Publish)), p, q, batch, k + 1, rest);
    }
  }

  /** The session `q`, whose batch is sent, when `k` messages have been routed and confirmed. */
  ghost predicate HalfRouted(q: Publisher, t: Publisher, batch: seq<EventId>, first: nat, k: nat) {
    && t == q.(unhandled := Tags(first + k, first + |batch|), fates := t.fates, confirms := t.confirms)
    && q.wire == [] && first + |batch| == |q.sent| && q.sent[..first] + batch == q.sent
    && Positive(t.confirms, first, first + k)
  }

  lemma RoutesNext(s: State, p: nat, q: Publisher, batch: seq<EventId>, first: nat, k: nat)
    requires k < |batch| && p in s.publishers && HalfRouted(q, s.publishers[p], batch, first, k)
    ensures var t := Next(Next(s, PublisherDoes(p, Handle(first + k, Routed))), PublisherDoes(p, Transmit));
            && p in t.publishers && HalfRouted(q, t.publishers[p], batch, first, k + 1)
            && t == s.(publishers := t.publishers, events := s.events + multiset{Message(Some(batch[k]), 0)})
  {
    hide Next;
    RoutesOne(s, p, first + k);
    assert q.sent[first + k] == batch[k];
    assert Tags(first + k, first + |batch|) - {first + k} == Tags(first + k + 1, first + |batch|);
  }

  lemma {:induction false} RoutesAll(s: State, p: nat, q: Publisher, batch: seq<EventId>, first: nat, k: nat,
                                     rest: seq<PublisherStep>)
    returns (t: State)
    requires k <= |batch| && p in s.publishers && HalfRouted(q, s.publishers[p], batch, first, k)
    ensures Publishes(s, p, RouteSteps(batch, first, k, rest)) == Publishes(t, p, rest)
    ensures p in t.publishers && HalfRouted(q, t.publishers[p], batch, first, |batch|)
    ensures t == s.(publishers := t.publishers, events := t.events)
    ensures t.events == s.events + Messages(batch[k..])
    decreases |batch| - k
  {
    hide Publishes, Next, HalfRouted;
    t := s;
    if k < |batch| {
      var after := RouteSteps(batch, first, k + 1, rest);
      var handled := Next(s, PublisherDoes(p, Handle(first + k, Routed)));
      PublishesFirst(s, p, Handle(first + k, Routed), [Transmit] + after);
      PublishesFirst(handled, p, Transmit, after);
      RoutesNext(s, p, q, batch, first, k);
      t := RoutesAll(Next(handled, PublisherDoes(p, Transmit)), p, q, batch, first, k + 1, rest);
      assert batch[k..][1..] == batch[k + 1..];
    }
  }

  lemma RoutesOne(s: State, p: nat, tag: nat)
    requires p in s.publishers && tag in s.publishers[p].unhandled && tag < |s.publishers[p].sent|
    requires s.publishers[p].wire == []
    ensures var q := s.publishers[p];
            var t := Next(Next(s, PublisherDoes(p, Handle(tag, Routed))), PublisherDoes(p, Transmit));
            && t == s.(publishers := t.publishers, events := s.events + multiset{Message(Some(q.sent[tag]), 0)})
            && SessionIs(t, p, q.(unhandled := q.unhandled - {tag}, fates := q.fates[tag := Routed],
                                  confirms := q.confirms + [ConfirmFrame(tag, true)]))
  {
    var q := s.publishers[p];
    var u := Next(s, PublisherDoes(p, Handle(tag, Routed)));
    assert u.publishers[p].wire == [ConfirmFrame(tag, true)];
    assert u.publishers[p].wire[1..] == [];
  }

  lemma {:induction false} ConfirmsAll(s: State, p: nat, batch: seq<EventId>, first: nat, k: nat,
                                       rest: seq<PublisherStep>)
    returns (t: State)
    requires p in s.publishers && k <= |batch|
    requires s.publishers[p].phase == Confirming(batch, first, k)
    requires Positive(s.publishers[p].confirms, first + k, first + |batch|)
    ensures Publishes(s, p, ConfirmSteps(batch, k, rest)) == Publishes(t, p, rest)
    ensures t == s.(publishers := t.publishers)
    ensures SessionIs(t, p, s.publishers[p].(phase := Confirming(batch, first, |batch|), confirms := []))
    decreases |batch| - k
  {
    hide Publishes, Next;
    if k < |batch| {
      PublishesFirst(s, p, TakeConfirm, ConfirmSteps(batch, k + 1, rest));
      var u := Next(s, PublisherDoes(p, TakeConfirm));
      ConfirmsOne(s, p);
      t := ConfirmsAll(u, p, batch, first, k + 1, rest);
    } else {
      t := s;
    }
  }

  lemma ConfirmsOne(s: State, p: nat)
    requires p in s.publishers && s.publishers[p].phase.Confirming?
    requires s.publishers[p].phase.count < |s.publishers[p].phase.batch| && s.publishers[p].confirms != []
    requires var q := s.publishers[p]; q.confirms[0] == ConfirmFrame(q.phase.first + q.phase.count, true)
    ensures var q := s.publishers[p];
            var t := Next(s, PublisherDoes(p, TakeConfirm));
            && t == s.(publishers := t.publishers)
            && SessionIs(t, p, q.(confirms := q.confirms[1..],
                                  phase := Confirming(q.phase.batch, q.phase.first, q.phase.count + 1)))
  {
  }

  lemma MarksAll(s: State, p: nat, batch: seq<EventId>)
    requires p in s.publishers && s.publishers[p].phase.Confirming? && s.publishers[p].phase.batch == batch
    requires s.publishers[p].phase.count == |batch| && s.publishers[p].returned == 0
    ensures var t := Publishes(s, p, [CheckReturns] + ([MarkPublished] + []));
            && t == s.(publishers := t.publishers, published := t.published)
            && SessionIs(t, p, s.publishers[p].(phase := Polling))
            && t.published.Keys == s.published.Keys
            && forall id | id in s.published :: t.published[id] <==> s.published[id] || id in batch
  {
    PublishesFirst(s, p, CheckReturns, [MarkPublished] + []);
    var u := Next(s, PublisherDoes(p, CheckReturns));
    assert u == s.(publishers := u.publishers) && u.publishers[p].phase.Marking?;
    PublishesFirst(u, p, MarkPublished, []);
  }

  /**
   A batch of at most 128 unpublished events whose messages are all routed, undisturbed: each is in the queue
   once more with no header, each row is marked and no other, and the session is ready for the next batch.
   */
  lemma OneBatchAlone(s: State, p: nat, batch: seq<EventId>)
    requires p in s.publishers && 0 < |batch| <= 128 && forall id | id in batch :: id in s.published && !s.published[id]
    requires var q := s.publishers[p];
             q.phase.Polling? && q.unhandled == {} && q.wire == [] && q.confirms == [] && q.returned == 0
    ensures var q := s.publishers[p];
            var t := Publishes(s, p, BatchSteps(batch, |q.sent|));
            && t.events == s.events + Messages(batch) && t.published.Keys == s.published.Keys
            && (forall id | id in s.published :: t.published[id] <==> s.published[id] || id in batch)
            && p in t.publishers && t.publishers[p] == q.(sent := q.sent + batch, fates := t.publishers[p].fates)
  {
    hide Publishes, Next;
    var q := s.publishers[p];
    var first := |q.sent|;
    var last := [CheckReturns] + ([MarkPublished] + []);
    var confirms := ConfirmSteps(batch, 0, last);
    var routes := RouteSteps(batch, first, 0, confirms);
    PublishesFirst(s, p, Fetch(batch), PublishSteps(batch, 0, routes));
    FetchesAlone(s, p, batch);
    var fetched := Next(s, PublisherDoes(p, Fetch(batch)));
    assert q.sent + batch[..0] == q.sent && Tags(first, first) == {};
    var sent := PublishesAll(fetched, p, q, batch, 0, routes);
    assert batch[..|batch|] == batch && (q.sent + batch)[..first] == q.sent;
    var ready := sent.publishers[p];
    var routed := RoutesAll(sent, p, ready, batch, first, 0, confirms);
    assert batch[0..] == batch && Tags(first + |batch|, first + |batch|) == {};
    var confirmed := ConfirmsAll(routed, p, batch, first, 0, last);
    MarksAll(confirmed, p, batch);
  }

  /** A returned message ends the session before its batch is marked, whenever the return is noticed. */
  lemma ReturnsEndTheSession(s: State, p: nat)
    requires p in s.publishers && s.publishers[p].phase.Confirming? && s.publishers[p].returned > 0
    ensures var t := Next(s, PublisherDoes(p, TakeReturn));
            t.published == s.published && p in t.publishers && t.publishers[p].phase == Closed
    ensures s.publishers[p].phase.count == |s.publishers[p].phase.batch| ==>
              var t := Next(s, PublisherDoes(p, CheckReturns));
              t.published == s.published && p in t.publishers && t.publishers[p].phase == Closed
  {
  }

  lemma FetchesAlone(s: State, p: nat, batch: seq<EventId>)
    requires p in s.publishers && 0 < |batch| <= 128 && forall id | id in batch :: id in s.published && !s.published[id]
    requires s.publishers[p].phase.Polling?
    ensures var t := Next(s, PublisherDoes(p, Fetch(batch)));
            && t == s.(publishers := t.publishers)
            && SessionIs(t, p, s.publishers[p].(phase := Publishing(batch, |s.publishers[p].sent|, 0)))
  {
  }

  // ---------------------------------------------------------------------------------------------
  // A late confirmation loses an event
  // ---------------------------------------------------------------------------------------------

  ghost predicate Reachable(s: State) {
    exists steps :: Run(INIT, steps) == s
  }

  lemma {:induction false} RunSnoc(s: State, steps: seq<Step>, step: Step)
    ensures Run(s, steps + [step]) == Next(Run(s, steps), step)
    decreases |steps|
  {
    hide Next;
    if steps == [] {
      assert Run(Next(s, step), []) == Next(s, step);
    } else {
      assert (steps + [step])[1..] == steps[1..] + [step];
      RunSnoc(Next(s, steps[0]), steps[1..], step);
    }
  }

  lemma ReachNext(s: State, step: Step, t: State)
    requires Reachable(s) && t == Next(s, step)
    ensures Reachable(t)
  {
    hide Next;
    var steps :| Run(INIT, steps) == s;
    RunSnoc(INIT, steps, step);
  }

  const FIRST := Message(Some(1), 0)
  const SECOND := Message(Some(2), 0)
  const RETRIED_FIRST := Message(Some(1), 1)
  const RETRIED_SECOND := Message(Some(2), 1)

  /** One publisher session while it publishes event 2. */
  function Sending(q: Publisher, marked: bool, events: multiset<Message>): State {
    State(map[2 := marked], {}, {}, events, multiset{}, multiset{}, map[0 := q], map[])
  }

  lemma PublisherMoves(q: Publisher, doing: PublisherStep, t: Publisher, events: multiset<Message>)
    requires Reachable(Sending(q, false, events)) && !doing.Handle? && !doing.MarkPublished?
    requires NextPublisher(Sending(q, false, events), q, doing) == t
    ensures Reachable(Sending(t, false, events))
  {
    hide Reachable, NextPublisher;
    var s := Sending(q, false, events);
    assert SetPublisher(s, 0, t).publishers == map[0 := t];
    ReachNext(s, PublisherDoes(0, doing), Sending(t, false, events));
  }

  const STARTED := Publisher(Polling, [], {}, map[], [], [], 0)
  const SENT := Publisher(Confirming([2], 0, 0), [2], {0}, map[], [], [], 0)
  const ROUTED := Publisher(Confirming([2], 0, 0), [2], {}, map[0 := Routed], [ConfirmFrame(0, true)], [], 0)
  const HEARD := ROUTED.(wire := [], confirms := [ConfirmFrame(0, true)])
  const CHECKED := HEARD.(confirms := [], phase := Marking([2], 0))
  const DONE := CHECKED.(phase := Polling)

  lemma SessionStarts()
    ensures Reachable(Sending(STARTED, false, multiset{FIRST}))
  {
    assert Run(INIT, []) == INIT;
    var s := INIT.(events := multiset{FIRST});
    ReachNext(INIT, Foreign(FIRST), s);
    ReachNext(s, CommitEvent(2), s.(published := map[2 := false]));
    ReachNext(s.(published := map[2 := false]), OpenPublisher(0), Sending(STARTED, false, multiset{FIRST}));
  }

  lemma EventIsSent()
    ensures Reachable(Sending(SENT, false, multiset{FIRST}))
  {
    hide Reachable;
    SessionStarts();
    PublisherMoves(STARTED, Fetch([2]), STARTED.(phase := Publishing([2], 0, 0)), multiset{FIRST});
    PublisherMoves(STARTED.(phase := Publishing([2], 0, 0)), Publish, SENT, multiset{FIRST});
  }

  lemma EventIsRouted()
    ensures Reachable(Sending(ROUTED, false, multiset{FIRST, SECOND}))
  {
    hide Reachable;
    EventIsSent();
    var s := Sending(SENT, false, multiset{FIRST});
    assert NextPublisher(s, SENT, Handle(0, Routed)) == ROUTED;
    assert SetPublisher(s, 0, ROUTED).publishers == map[0 := ROUTED];
    ReachNext(s, PublisherDoes(0, Handle(0, Routed)), Sending(ROUTED, false, multiset{FIRST, SECOND}));
  }

  lemma EventIsConfirmed()
    ensures Reachable(Sending(CHECKED, false, multiset{FIRST, SECOND}))
  {
    hide Reachable;
    EventIsRouted();
    var q := HEARD.(confirms := [], phase := Confirming([2], 0, 1));
    PublisherMoves(ROUTED, Transmit, HEARD, multiset{FIRST, SECOND});
    PublisherMoves(HEARD, TakeConfirm, q, multiset{FIRST, SECOND});
    PublisherMoves(q, CheckReturns, CHECKED, multiset{FIRST, SECOND});
  }

  lemma EventIsMarked()
    ensures Reachable(Sending(DONE, true, multiset{FIRST, SECOND}))
  {
    hide Reachable;
    EventIsConfirmed();
    var s := Sending(CHECKED, false, multiset{FIRST, SECOND});
    assert Published(s, [2]) == map[2 := true];
    ReachNext(s, PublisherDoes(0, MarkPublished), Sending(DONE, true, multiset{FIRST, SECOND}));
  }

  /** One consumer session after event 2 has been published and marked. */
  function Consuming(d: Consumer, events: multiset<Message>, retry: multiset<Message>): State {
    Sending(DONE, true, events).(retry := retry, consumers := map[0 := d])
  }

  lemma ConsumerGoes(d: Consumer, action: ConsumerStep, t: Consumer,
                     events: multiset<Message>, retry: multiset<Message>)
    requires action != CommitMarker(true) && action != Relay(true)
    requires var s := Consuming(d, events, retry);
             CanConsume(s, d, action) && NextConsumer(s, d, action) == t && NextDead(s, d, action) == multiset{}
    ensures var s := Consuming(d, events, retry);
            Next(s, ConsumerDoes(0, action)) == Consuming(t, NextEvents(s, d, action), NextRetry(s, d, action))
  {
    hide CanConsume, NextConsumer, NextDead, NextEvents, NextRetry;
    assert SetConsumer(Consuming(d, events, retry), 0, t).consumers == map[0 := t];
  }

  lemma ConsumerMoves(d: Consumer, action: ConsumerStep, t: Consumer,
                      events: multiset<Message>, retry: multiset<Message>)
    requires Reachable(Consuming(d, events, retry)) && action != CommitMarker(true) && action != Relay(true)
    requires var s := Consuming(d, events, retry);
             CanConsume(s, d, action) && NextConsumer(s, d, action) == t && NextDead(s, d, action) == multiset{}
    ensures var s := Consuming(d, events, retry);
            Reachable(Consuming(t, NextEvents(s, d, action), NextRetry(s, d, action)))
  {
    hide Reachable, CanConsume, NextConsumer, NextDead, NextEvents, NextRetry, Next;
    var s := Consuming(d, events, retry);
    ConsumerGoes(d, action, t, events, retry);
    ReachNext(s, ConsumerDoes(0, action), Consuming(t, NextEvents(s, d, action), NextRetry(s, d, action)));
  }

  /** An idle session takes the message, fails to process it and sends its retry. */
  lemma RetryIsSent(d: Consumer, m: Message, events: multiset<Message>, retry: multiset<Message>)
    requires Reachable(Consuming(d, events + multiset{m}, retry)) && d.phase.Idle? && d.prefetched == []
    requires m.body.Some? && m.attempt == 0
    ensures Reachable(Consuming(d.(phase := AwaitingConfirm(m, |d.retries|), unhandled := d.unhandled + {|d.retries|},
                                   retries := d.retries + [m.(attempt := 1)]), events, retry))
  {
    hide Reachable;
    assert events + multiset{m} - multiset{m} == events;
    ConsumerMoves(d, Deliver(m), d.(prefetched := [m]), events + multiset{m}, retry);
    ConsumerMoves(d.(prefetched := [m]), Take, d.(phase := Handling(m)), events, retry);
    RetryFollowsFailure(d, m, events, retry);
  }

  lemma RetryFollowsFailure(d: Consumer, m: Message, events: multiset<Message>, retry: multiset<Message>)
    requires Reachable(Consuming(d.(phase := Handling(m)), events, retry)) && m.body.Some? && m.attempt == 0
    ensures Reachable(Consuming(d.(phase := AwaitingConfirm(m, |d.retries|), unhandled := d.unhandled + {|d.retries|},
                                   retries := d.retries + [m.(attempt := 1)]), events, retry))
  {
    hide Reachable;
    ConsumerMoves(d.(phase := Handling(m)), CommitMarker(false), d.(phase := Failing(m)), events, retry);
    ConsumerMoves(d.(phase := Failing(m)), Recover(true),
                  d.(phase := AwaitingConfirm(m, |d.retries|), unhandled := d.unhandled + {|d.retries|},
                     retries := d.retries + [m.(attempt := 1)]), events, retry);
  }

  const WAITING := Consumer(AwaitingConfirm(FIRST, 0), [], [RETRIED_FIRST], {0}, map[], [])
  const LATE := Consumer(Idle, [], [RETRIED_FIRST], {}, map[0 := Routed], [(0, true)])
  const MISTAKEN := Consumer(AwaitingConfirm(SECOND, 1), [], [RETRIED_FIRST, RETRIED_SECOND], {1},
                             map[0 := Routed], [(0, true)])
  const FOOLED := MISTAKEN.(phase := Idle, confirms := [])
  const REFUSED := FOOLED.(unhandled := {}, fates := map[0 := Routed, 1 := Refused], confirms := [(1, false)])

  lemma FirstRetryIsSent()
    ensures Reachable(Consuming(WAITING, multiset{SECOND}, multiset{}))
  {
    hide Reachable;
    EventIsMarked();
    var d := Consumer(Idle, [], [], {}, map[], []);
    assert multiset{SECOND} + multiset{FIRST} == multiset{FIRST, SECOND};
    ReachNext(Sending(DONE, true, multiset{FIRST, SECOND}), OpenConsumer(0),
              Consuming(d, multiset{FIRST, SECOND}, multiset{}));
    RetryIsSent(d, FIRST, multiset{SECOND}, multiset{});
    assert d.retries + [FIRST.(attempt := 1)] == [RETRIED_FIRST] && d.unhandled + {0} == {0};
  }

  lemma FirstConfirmIsLate()
    ensures Reachable(Consuming(LATE, multiset{SECOND, FIRST}, multiset{RETRIED_FIRST}))
  {
    hide Reachable;
    FirstRetryIsSent();
    var d := WAITING.(phase := Requeueing(FIRST));
    ConsumerMoves(WAITING, GiveUpConfirm, d, multiset{SECOND}, multiset{});
    ConsumerMoves(d, Requeue, d.(phase := Idle), multiset{SECOND}, multiset{});
    assert multiset{SECOND} + multiset{FIRST} == multiset{SECOND, FIRST};
    assert multiset{} + multiset{RETRIED_FIRST} == multiset{RETRIED_FIRST};
    ConsumerMoves(d.(phase := Idle), HandleRetry(0, Routed), LATE, multiset{SECOND, FIRST}, multiset{});
  }

  lemma SecondRetryIsSent()
    ensures Reachable(Consuming(MISTAKEN, multiset{FIRST}, multiset{RETRIED_FIRST}))
  {
    hide Reachable;
    FirstConfirmIsLate();
    assert multiset{FIRST} + multiset{SECOND} == multiset{SECOND, FIRST};
    RetryIsSent(LATE, SECOND, multiset{FIRST}, multiset{RETRIED_FIRST});
    assert LATE.retries + [SECOND.(attempt := 1)] == [RETRIED_FIRST, RETRIED_SECOND] && LATE.unhandled + {1} == {1};
  }

  /** Published, never processed, in no queue, and no publication that could still bring it back. */
  ghost predicate Lost(s: State, id: EventId) {
    && id in s.published && s.published[id] && id !in s.handled
    && (forall m | Present(s, m) :: m.body != Some(id))
    && (forall p | p in s.publishers :: s.publishers[p].unhandled == {})
    && (forall c | c in s.consumers :: s.consumers[c].unhandled == {})
  }

  /**
   The session awaits one retry and finds the confirmation of another; taking it acknowledges the last copy
   of the event, and once the broker has refused the awaited retry nothing can bring the event back.
   */
  ghost predicate LateConfirmLoses(s: State, c: nat, id: EventId) {
    && c in s.consumers && s.consumers[c].phase.AwaitingConfirm?
    && var d := s.consumers[c];
       var t := Next(s, ConsumerDoes(c, TakeRetryConfirm));
       var u := Next(t, ConsumerDoes(c, HandleRetry(d.phase.tag, Refused)));
       && d.phase.message.body == Some(id) && d.phase.tag in d.unhandled
       && d.confirms != [] && d.confirms[0].0 != d.phase.tag
       && Uncovers(s, ConsumerDoes(c, TakeRetryConfirm))
       && c in t.consumers && d.phase.tag in t.consumers[c].unhandled
       && Lost(u, id)
  }

  lemma MistakenIsLast()
    ensures Uncovers(Consuming(MISTAKEN, multiset{FIRST}, multiset{RETRIED_FIRST}), ConsumerDoes(0, TakeRetryConfirm))
  {
    var s := Consuming(MISTAKEN, multiset{FIRST}, multiset{RETRIED_FIRST});
    assert forall e, m | e != 0 :: !Unacks(s, e, m);
  }

  lemma RefusedIsLost()
    ensures Lost(Consuming(REFUSED, multiset{FIRST}, multiset{RETRIED_FIRST}), 2)
  {
    var s := Consuming(REFUSED, multiset{FIRST}, multiset{RETRIED_FIRST});
    assert forall m | Present(s, m) :: m.body != Some(2) by {
      assert forall c, m :: !Unacks(s, c, m);
    }
  }

  lemma MistakenIsFooled()
    ensures var s := Consuming(MISTAKEN, multiset{FIRST}, multiset{RETRIED_FIRST});
            var t := Consuming(FOOLED, multiset{FIRST}, multiset{RETRIED_FIRST});
            Next(s, ConsumerDoes(0, TakeRetryConfirm)) == t
  {
    hide Next;
    ConsumerGoes(MISTAKEN, TakeRetryConfirm, FOOLED, multiset{FIRST}, multiset{RETRIED_FIRST});
  }

  lemma FooledIsRefused()
    ensures var t := Consuming(FOOLED, multiset{FIRST}, multiset{RETRIED_FIRST});
            var u := Consuming(REFUSED, multiset{FIRST}, multiset{RETRIED_FIRST});
            Next(t, ConsumerDoes(0, HandleRetry(1, Refused))) == u
  {
    hide Next;
    assert FOOLED.fates[1 := Refused] == REFUSED.fates && FOOLED.unhandled - {1} == {};
    ConsumerGoes(FOOLED, HandleRetry(1, Refused), REFUSED, multiset{FIRST}, multiset{RETRIED_FIRST});
  }

  /**
   One way to acknowledge a last copy. A confirmation that arrives after its five-second wait stays in the
   channel and is taken for the next retry's own, so a message whose retry the broker refused is gone.
   */
  lemma LostByLateConfirm()
    ensures exists s: State, c: nat, id: EventId :: Reachable(s) && LateConfirmLoses(s, c, id)
  {
    SecondRetryIsSent();
    MistakenIsLast();
    MistakenIsFooled();
    FooledIsRefused();
    RefusedIsLost();
    hide Reachable, Uncovers, Lost, Next;
    assert LateConfirmLoses(Consuming(MISTAKEN, multiset{FIRST}, multiset{RETRIED_FIRST}), 0, 2);
  }

  /** The other way: whoever holds the last copy loses it when its retry is unroutable, with no delay at all. */
  lemma UnroutableRetryLosesLastCopy(s: State, c: nat)
    requires Inv(s) && c in s.consumers && s.consumers[c].phase.AwaitingConfirm? && LastCopy(s, c)
    requires s.consumers[c].confirms == [] && s.consumers[c].phase.tag in s.consumers[c].unhandled
    ensures var d := s.consumers[c];
            var t := NextConsume(s, c, HandleRetry(d.phase.tag, Unroutable));
            var u := NextConsume(t, c, TakeRetryConfirm);
            Covered(s, d.phase.message.body.value, 0) && !Covered(u, d.phase.message.body.value, 0)
  {
    hide LastCopy, Covered, NextConsume;
    HeldIsCovered(s, c);
    RetriesAreKnown(s, c);
    StillLastCopy(s, c);
    LastCopyGoes(NextConsume(s, c, HandleRetry(s.consumers[c].phase.tag, Unroutable)), c);
  }

  lemma RetriesAreKnown(s: State, c: nat)
    requires Inv(s) && c in s.consumers
    ensures forall tag | tag in s.consumers[c].unhandled :: tag < |s.consumers[c].retries|
  {
    ConsumersAreOk(s, c);
  }

  lemma HeldIsCovered(s: State, c: nat)
    requires c in s.consumers && s.consumers[c].phase.AwaitingConfirm? && LastCopy(s, c)
    ensures Covered(s, s.consumers[c].phase.message.body.value, 0)
  {
    var m := s.consumers[c].phase.message;
    assert Unacks(s, c, m) && Copies(s, m.body.value, 0, m);
  }

  lemma StillLastCopy(s: State, c: nat)
    requires c in s.consumers && s.consumers[c].phase.AwaitingConfirm? && LastCopy(s, c)
    requires s.consumers[c].confirms == []
    requires CanConsume(s, s.consumers[c], HandleRetry(s.consumers[c].phase.tag, Unroutable))
    ensures var d := s.consumers[c];
            var t := NextConsume(s, c, HandleRetry(d.phase.tag, Unroutable));
            && c in t.consumers && t.consumers[c].phase == d.phase && t.consumers[c].confirms == [(d.phase.tag, true)]
            && t.consumers[c].phase.message.body.Some? && LastCopy(t, c)
  {
    var t := NextConsume(s, c, HandleRetry(s.consumers[c].phase.tag, Unroutable));
    assert forall e, m | e != c :: Unacks(t, e, m) ==> Unacks(s, e, m);
  }

  const UNROUTED := Consumer(AwaitingConfirm(SECOND, 0), [], [RETRIED_SECOND], {0}, map[], [])
  const ANSWERED := UNROUTED.(unhandled := {}, fates := map[0 := Unroutable], confirms := [(0, true)])

  lemma UnroutedRetryIsSent()
    ensures Reachable(Consuming(UNROUTED, multiset{FIRST}, multiset{}))
  {
    hide Reachable;
    EventIsMarked();
    var d := Consumer(Idle, [], [], {}, map[], []);
    assert multiset{FIRST} + multiset{SECOND} == multiset{FIRST, SECOND};
    ReachNext(Sending(DONE, true, multiset{FIRST, SECOND}), OpenConsumer(0),
              Consuming(d, multiset{FIRST, SECOND}, multiset{}));
    RetryIsSent(d, SECOND, multiset{FIRST}, multiset{});
    assert d.retries + [SECOND.(attempt := 1)] == [RETRIED_SECOND] && d.unhandled + {0} == {0};
  }

  lemma UnroutedRetryIsConfirmed()
    ensures Reachable(Consuming(ANSWERED, multiset{FIRST}, multiset{}))
  {
    hide Reachable;
    UnroutedRetryIsSent();
    ConsumerMoves(UNROUTED, HandleRetry(0, Unroutable), ANSWERED, multiset{FIRST}, multiset{});
  }

  /** The awaited retry was returned and confirmed; taking that confirmation acknowledges the last copy. */
  ghost predicate UnroutableLoses(s: State, c: nat, id: EventId) {
    && c in s.consumers && s.consumers[c].phase.AwaitingConfirm?
    && var d := s.consumers[c];
       && d.phase.message.body == Some(id)
       && d.phase.tag in d.fates && d.fates[d.phase.tag] == Unroutable
       && d.confirms != [] && d.confirms[0] == (d.phase.tag, true)
       && Uncovers(s, ConsumerDoes(c, TakeRetryConfirm))
       && Lost(Next(s, ConsumerDoes(c, TakeRetryConfirm)), id)
  }

  const MISLED := ANSWERED.(phase := Idle, confirms := [])

  lemma AnsweredIsLast()
    ensures Uncovers(Consuming(ANSWERED, multiset{FIRST}, multiset{}), ConsumerDoes(0, TakeRetryConfirm))
  {
    var s := Consuming(ANSWERED, multiset{FIRST}, multiset{});
    assert forall e, m | e != 0 :: !Unacks(s, e, m);
  }

  lemma AnsweredIsMisled()
    ensures Next(Consuming(ANSWERED, multiset{FIRST}, multiset{}), ConsumerDoes(0, TakeRetryConfirm)) ==
            Consuming(MISLED, multiset{FIRST}, multiset{})
  {
    hide Next;
    ConsumerGoes(ANSWERED, TakeRetryConfirm, MISLED, multiset{FIRST}, multiset{});
  }

  lemma MisledIsLost()
    ensures Lost(Consuming(MISLED, multiset{FIRST}, multiset{}), 2)
  {
    var s := Consuming(MISLED, multiset{FIRST}, multiset{});
    assert forall m | Present(s, m) :: m.body != Some(2) by {
      assert forall c, m :: !Unacks(s, c, m);
    }
  }

  /** Such a run exists: the event was published and marked, and its first retry is returned. */
  lemma LostByUnroutableRetry()
    ensures exists s: State, c: nat, id: EventId :: Reachable(s) && UnroutableLoses(s, c, id)
  {
    UnroutedRetryIsConfirmed();
    AnsweredIsLast();
    AnsweredIsMisled();
    MisledIsLost();
    hide Reachable, Uncovers, Lost, Next;
    assert UnroutableLoses(Consuming(ANSWERED, multiset{FIRST}, multiset{}), 0, 2);
  }
}
