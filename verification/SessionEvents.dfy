/** The bounded fan-out of session events.  Every observer has its own queue; one that falls a
    whole queue behind is cut off with a marker instead of slowing the publisher down.  Each
    method below runs without an await, so methods of different observers interleave freely. */
module SessionEvents {
  import opened Common
  import Json

  datatype PublishedEvent = PublishedEvent(event: string, id: nat, data: map<string, Json.Value>)

  datatype Item = Event(published: PublishedEvent) | Overflow(cursor: nat) | Closed

  /** One observer: its queue, whether the publisher still feeds it, what it has been given and
      which end markers it has read. */
  datatype Observer = Observer(
    cursor: nat,
    queue: seq<Item>,
    subscribed: bool,
    closed: bool,
    delivered: seq<PublishedEvent>,
    markers: seq<Item>)

  function Queued(events: seq<PublishedEvent>): seq<Item> {
    seq(|events|, i requires 0 <= i < |events| => Event(events[i]))
  }

  /** Ids are positions in the publisher's log, starting at 1. */
  ghost predicate Numbered(log: seq<PublishedEvent>) {
    forall i :: 0 <= i < |log| ==> log[i].id == i + 1
  }

  /** How many published events the observer has not been given. */
  function Behind(o: Observer, log: seq<PublishedEvent>): int { |log| - o.cursor - |o.delivered| }

  /** An overflow marker names the first event that did not fit: a whole queue plus one after the
      last event given. */
  predicate HonestMarker(m: Item, o: Observer, log: seq<PublishedEvent>, size: nat) {
    m.Closed? || (m.Overflow? && m.cursor == o.cursor + |o.delivered| + size + 1 <= |log|)
  }

  /** What an observer has been given is the log from its cursor on, without a gap.  While it is
      fed, its queue is the rest of the log; afterwards there are no more events, and a marker
      tells it, one more if it also closed itself. */
  predicate Faithful(o: Observer, log: seq<PublishedEvent>, size: nat) {
    && Behind(o, log) >= 0
    && o.delivered == log[o.cursor..o.cursor + |o.delivered|]
    && (o.subscribed ==> o.queue == Queued(log[o.cursor + |o.delivered|..]) && |o.queue| <= size)
    && (o.subscribed ==> o.markers == [] && !o.closed)
    && (!o.subscribed ==> Ended(o, log, size))
  }

  predicate Ended(o: Observer, log: seq<PublishedEvent>, size: nat) {
    && 1 <= |o.queue| + |o.markers| <= (if o.closed then 2 else 1) && |o.queue| <= 1
    && (forall m :: m in o.queue ==> HonestMarker(m, o, log, size))
    && (forall m :: m in o.markers ==> HonestMarker(m, o, log, size))
  }

  // ----- what each operation does to one observer

  function Joined(cursor: nat): Observer { Observer(cursor, [], true, false, [], []) }

  function Offered(o: Observer, p: PublishedEvent, size: nat): Observer {
    if !o.subscribed then o
    else if |o.queue| < size then o.(queue := o.queue + [Event(p)])
    else o.(subscribed := false, queue := [Overflow(p.id)])
  }

  /** The reader's next step; on an empty queue it waits. */
  function Read(o: Observer): Observer {
    if o.queue == [] then o
    else
      match o.queue[0]
      case Event(p) => o.(queue := o.queue[1..], delivered := o.delivered + [p])
      case marker => o.(queue := o.queue[1..], markers := o.markers + [marker])
  }

  function Released(o: Observer): Observer {
    if o.closed then o else o.(closed := true, subscribed := false, queue := [Closed])
  }

  function Disconnected(o: Observer): Observer {
    if o.subscribed then o.(subscribed := false, queue := [Closed]) else o
  }

  // ----- one observer's invariant

  lemma QueuedSnoc(events: seq<PublishedEvent>, p: PublishedEvent)
    ensures Queued(events + [p]) == Queued(events) + [Event(p)]
  {
  }

  lemma OfferKeeps(o: Observer, log: seq<PublishedEvent>, p: PublishedEvent, size: nat)
    requires Faithful(o, log, size) && p.id == |log| + 1
    ensures Faithful(Offered(o, p, size), log + [p], size)
  {
    var next := o.cursor + |o.delivered|;
    assert (log + [p])[o.cursor..next] == log[o.cursor..next];
    if o.subscribed {
      assert (log + [p])[next..] == log[next..] + [p];
      QueuedSnoc(log[next..], p);
    }
  }

  lemma ReadKeeps(o: Observer, log: seq<PublishedEvent>, size: nat)
    requires Faithful(o, log, size)
    ensures Faithful(Read(o), log, size)
  {
    if o.queue != [] {
      if o.subscribed {
        GivenKeeps(o, log, size);
      } else {
        assert o.queue[0] in o.queue && !o.queue[0].Event?;
        assert o.queue[1..] == [];
      }
    }
  }

  lemma GivenKeeps(o: Observer, log: seq<PublishedEvent>, size: nat)
    requires Faithful(o, log, size) && o.subscribed && o.queue != []
    ensures Faithful(Read(o), log, size)
  {
    var next := o.cursor + |o.delivered|;
    assert |log[next..]| == |o.queue|;
    assert o.queue[0] == Event(log[next]);
    assert log[o.cursor..next] + [log[next]] == log[o.cursor..next + 1];
    assert Queued(log[next..])[1..] == Queued(log[next + 1..]);
  }

  lemma LeavingKeeps(o: Observer, log: seq<PublishedEvent>, size: nat)
    requires Faithful(o, log, size)
    ensures Faithful(Released(o), log, size) && Faithful(Disconnected(o), log, size)
  {
  }

  // ----- one observer's whole life

  datatype Step = Publish(event: string, data: map<string, Json.Value>) | Take | Leave | Disconnect

  function Grown(log: seq<PublishedEvent>, step: Step): seq<PublishedEvent> {
    if step.Publish? then log + [PublishedEvent(step.event, |log| + 1, step.data)] else log
  }

  function After(o: Observer, log: seq<PublishedEvent>, step: Step, size: nat): Observer {
    match step
    case Publish(event, data) => Offered(o, PublishedEvent(event, |log| + 1, data), size)
    case Take => Read(o)
    case Leave => Released(o)
    case Disconnect => Disconnected(o)
  }

  function Log(log: seq<PublishedEvent>, steps: seq<Step>, n: nat): seq<PublishedEvent>
    requires n <= |steps|
  {
    if n == 0 then log else Grown(Log(log, steps, n - 1), steps[n - 1])
  }

  /** The observer that joins after `log`, after the first `n` of the steps that follow. */
  function Life(log: seq<PublishedEvent>, steps: seq<Step>, n: nat, size: nat): Observer
    requires n <= |steps|
  {
    if n == 0 then Joined(|log|)
    else After(Life(log, steps, n - 1, size), Log(log, steps, n - 1), steps[n - 1], size)
  }

  lemma StepKeeps(o: Observer, log: seq<PublishedEvent>, step: Step, size: nat)
    requires Faithful(o, log, size)
    ensures Faithful(After(o, log, step, size), Grown(log, step), size)
  {
    match step
    case Publish(event, data) => OfferKeeps(o, log, PublishedEvent(event, |log| + 1, data), size);
    case Take => ReadKeeps(o, log, size);
    case Leave => LeavingKeeps(o, log, size);
    case Disconnect => LeavingKeeps(o, log, size);
  }

  lemma {:induction false} CursorStays(log: seq<PublishedEvent>, steps: seq<Step>, n: nat, size: nat)
    requires n <= |steps|
    ensures Life(log, steps, n, size).cursor == |log|
  {
    if n > 0 {
      CursorStays(log, steps, n - 1, size);
    }
  }

  lemma {:induction false} LogGrows(log: seq<PublishedEvent>, steps: seq<Step>, n: nat)
    requires n <= |steps| && Numbered(log)
    ensures Numbered(Log(log, steps, n)) && log <= Log(log, steps, n)
  {
    if n > 0 {
      LogGrows(log, steps, n - 1);
    }
  }

  lemma {:induction false} LifeKeeps(log: seq<PublishedEvent>, steps: seq<Step>, n: nat, size: nat)
    requires n <= |steps|
    ensures Faithful(Life(log, steps, n, size), Log(log, steps, n), size)
  {
    if n == 0 {
      assert Queued(log[|log|..]) == [];
    } else {
      LifeKeeps(log, steps, n - 1, size);
      StepKeeps(Life(log, steps, n - 1, size), Log(log, steps, n - 1), steps[n - 1], size);
    }
  }

  lemma FaithfulIds(o: Observer, log: seq<PublishedEvent>, size: nat)
    requires Faithful(o, log, size) && Numbered(log)
    ensures forall i :: 0 <= i < |o.delivered| ==> o.delivered[i].id == o.cursor + i + 1
  {
  }

  /** Whatever happens after it joined, an observer is given exactly the events after its cursor
      in order, and learns of every gap. */
  lemma LifeIsFaithful(log: seq<PublishedEvent>, steps: seq<Step>, n: nat, size: nat)
    requires n <= |steps| && Numbered(log)
    ensures Numbered(Log(log, steps, n)) && log <= Log(log, steps, n)
    ensures Faithful(Life(log, steps, n, size), Log(log, steps, n), size)
    ensures forall i :: 0 <= i < |Life(log, steps, n, size).delivered| ==>
              Life(log, steps, n, size).delivered[i].id == |log| + i + 1
  {
    LogGrows(log, steps, n);
    LifeKeeps(log, steps, n, size);
    CursorStays(log, steps, n, size);
    FaithfulIds(Life(log, steps, n, size), Log(log, steps, n), size);
  }

  /** A publication cuts a fed observer off exactly when it is a whole queue behind: then all it
      still gets is the overflow marker, and else the event behind the others. */
  lemma CutOffExactly(o: Observer, log: seq<PublishedEvent>, p: PublishedEvent, size: nat)
    requires Faithful(o, log, size) && o.subscribed
    ensures Offered(o, p, size).subscribed <==> Behind(o, log) < size
    ensures Offered(o, p, size).queue == if Behind(o, log) < size then o.queue + [Event(p)] else [Overflow(p.id)]
  {
    assert |o.queue| == |log[o.cursor + |o.delivered|..]|;
  }

  /** A fed observer that is behind is given the next event of the log by its next reading. */
  lemma ReadingGivesNext(o: Observer, log: seq<PublishedEvent>, size: nat)
    requires Faithful(o, log, size) && o.subscribed
    ensures o.queue != [] <==> Behind(o, log) > 0
    ensures Behind(o, log) > 0 ==>
              Read(o).subscribed && Read(o).delivered == o.delivered + [log[o.cursor + |o.delivered|]]
  {
    var next := o.cursor + |o.delivered|;
    assert |o.queue| == |log[next..]|;
    if o.queue != [] {
      assert o.queue[0] == Event(log[next]);
    }
  }

  /** `n` readings one after the other. */
  function Reads(o: Observer, n: nat): Observer
    decreases n
  {
    if n == 0 then o else Reads(Read(o), n - 1)
  }

  /** So an observer that reads often enough before the next publication has been given everything. */
  lemma {:induction false} ReadingCatchesUp(o: Observer, log: seq<PublishedEvent>, size: nat, n: nat)
    requires Faithful(o, log, size) && o.subscribed && n >= Behind(o, log)
    ensures Reads(o, n).subscribed && Reads(o, n).delivered == log[o.cursor..] && Reads(o, n).queue == []
    decreases n
  {
    ReadingGivesNext(o, log, size);
    if n > 0 {
      ReadKeeps(o, log, size);
      ReadingCatchesUp(Read(o), log, size, n - 1);
    }
  }

  /** One that has ended reads its marker. */
  lemma ReadingTellsEnd(o: Observer, log: seq<PublishedEvent>, size: nat)
    requires Faithful(o, log, size) && !o.subscribed && o.queue != []
    ensures Read(o) == o.(queue := [], markers := o.markers + [o.queue[0]])
  {
    assert o.queue[0] in o.queue && o.queue[1..] == [];
  }

  /** A reader with nothing to read has been given everything, or has been told that it ended. */
  lemma WaitingMeansCurrent(o: Observer, log: seq<PublishedEvent>, size: nat)
    requires Faithful(o, log, size) && o.queue == []
    ensures o.subscribed ==> o.delivered == log[o.cursor..]
    ensures !o.subscribed ==> o.markers != []
  {
    if o.subscribed {
      assert |Queued(log[o.cursor + |o.delivered|..])| == 0;
    }
  }

  lemma EndedStaysEnded(o: Observer, log: seq<PublishedEvent>, step: Step, size: nat)
    requires Faithful(o, log, size) && !o.subscribed
    ensures var next := After(o, log, step, size); !next.subscribed && next.delivered == o.delivered
  {
    if o.queue != [] {
      assert o.queue[0] in o.queue;
    }
  }

  /** Once removed, an observer is never given another event. */
  lemma {:induction false} RemovedForGood(log: seq<PublishedEvent>, steps: seq<Step>, m: nat, n: nat, size: nat)
    requires m <= n <= |steps| && Numbered(log) && !Life(log, steps, m, size).subscribed
    ensures !Life(log, steps, n, size).subscribed
    ensures Life(log, steps, n, size).delivered == Life(log, steps, m, size).delivered
    decreases n
  {
    if m < n {
      RemovedForGood(log, steps, m, n - 1, size);
      LifeIsFaithful(log, steps, n - 1, size);
      EndedStaysEnded(Life(log, steps, n - 1, size), Log(log, steps, n - 1), steps[n - 1], size);
    }
  }

  // ----- the objects

  datatype Reading = Yielded(published: PublishedEvent) | Overflowed(cursor: nat) | Finished

  function ReadingOf(item: Item): Reading {
    match item
    case Event(p) => Yielded(p)
    case Overflow(cursor) => Overflowed(cursor)
    case Closed => Finished
  }

  class EventSubscription {
    const publisher: EventPublisher
    const cursor: nat
    var queue: seq<Item>
    var closed: bool
    ghost var delivered: seq<PublishedEvent>
    ghost var markers: seq<Item>

    ghost function View(subscribed: bool): Observer
      reads this
    {
      Observer(cursor, queue, subscribed, closed, delivered, markers)
    }

    constructor (publisher: EventPublisher, cursor: nat)
      ensures View(true) == Joined(cursor) && this.publisher == publisher
    {
      this.publisher, this.cursor := publisher, cursor;
      queue, closed, delivered, markers := [], false, [], [];
    }

    /** Empties the queue and leaves one marker in it. */
    method Signal(item: Item)
      modifies this`queue
      ensures queue == [item]
    {
      while queue != []
        decreases |queue|
      {
        queue := queue[1..];
      }
      queue := queue + [item];
    }

    /** One turn of the reading loop, once the queue has an item. */
    method Next() returns (r: Reading)
      requires publisher.Valid() && this in publisher.all && queue != []
      modifies this
      ensures publisher.Valid() && queue == old(queue)[1..]
      ensures r == match old(queue[0])
                   case Event(p) => Yielded(p)
                   case Overflow(c) => Overflowed(c)
                   case Closed => Finished
      ensures publisher.Of(this) == Read(old(publisher.Of(this)))
    {
      ReadKeeps(publisher.Of(this), publisher.log, publisher.queueSize);
      var item := queue[0];
      queue := queue[1..];
      if item.Event? {
        delivered := delivered + [item.published];
      } else {
        markers := markers + [item];
      }
      r := ReadingOf(item);
    }

    method Aclose()
      requires publisher.Valid() && this in publisher.all
      modifies this, publisher
      ensures publisher.Valid() && publisher.log == old(publisher.log) && publisher.all == old(publisher.all)
      ensures publisher.Of(this) == Released(old(publisher.Of(this)))
      ensures closed && this !in publisher.subscriptions && (!old(closed) ==> queue == [Closed])
      ensures forall s :: s in publisher.all && s != this ==> publisher.Of(s) == old(publisher.Of(s))
    {
      if closed {
        return;
      }
      LeavingKeeps(publisher.Of(this), publisher.log, publisher.queueSize);
      closed := true;
      publisher.Unsubscribe(this);
      Signal(Closed);
    }
  }

  class EventPublisher {
    const queueSize: nat
    var sequence: nat
    var subscriptions: set<EventSubscription>
    var closed: bool
    ghost var log: seq<PublishedEvent>
    ghost var all: set<EventSubscription>    // every observer that ever subscribed

    ghost function Of(s: EventSubscription): Observer
      reads this, s
    {
      s.View(s in subscriptions)
    }

    ghost predicate Valid()
      reads this, all
    {
      && queueSize > 0 && sequence == |log| && Numbered(log)
      && subscriptions <= all && (closed ==> subscriptions == {})
      && (forall s :: s in all ==> s.publisher == this)
      && (forall s :: s in all ==> Faithful(Of(s), log, queueSize))
    }

    constructor (queueSize: nat)
      requires queueSize > 0
      ensures Valid() && log == [] && all == {} && !closed && this.queueSize == queueSize
    {
      this.queueSize, sequence, subscriptions, closed, log, all := queueSize, 0, {}, false, [], {};
    }

    method Subscribe() returns (r: Option<EventSubscription>)
      requires Valid()
      modifies this
      ensures Valid() && log == old(log) && closed == old(closed)
      ensures r.None? <==> closed
      ensures r.Some? ==> fresh(r.value) && all == old(all) + {r.value} && Of(r.value) == Joined(|log|)
      ensures r.None? ==> all == old(all)
      ensures forall s :: s in old(all) ==> Of(s) == old(Of(s))
    {
      if closed {
        return None;
      }
      var subscription := new EventSubscription(this, sequence);
      assert Queued(log[|log|..]) == [];
      subscriptions, all := subscriptions + {subscription}, all + {subscription};
      return Some(subscription);
    }

    method Publish(event: string, data: map<string, Json.Value>) returns (r: Option<PublishedEvent>)
      requires Valid()
      modifies this, subscriptions
      ensures Valid() && all == old(all) && closed == old(closed)
      ensures r.None? <==> closed
      ensures r.None? ==> log == old(log) && forall s :: s in all ==> Of(s) == old(Of(s))
      ensures r.Some? ==> r.value == PublishedEvent(event, |old(log)| + 1, data) && log == old(log) + [r.value]
      ensures r.Some? ==> forall s :: s in all ==> Of(s) == Offered(old(Of(s)), r.value, queueSize)
    {
      if closed {
        return None;
      }
      sequence := sequence + 1;
      var published := PublishedEvent(event, sequence, data);
      ghost var before := log;
      log := log + [published];
      Deliver(published);
      forall s | s in all ensures Faithful(Of(s), log, queueSize) {
        OfferKeeps(old(Of(s)), before, published, queueSize);
      }
      return Some(published);
    }

    /** Puts one event into every queue; a full queue gets the overflow marker instead. */
    method Deliver(published: PublishedEvent)
      requires subscriptions <= all
      modifies this`subscriptions, subscriptions
      ensures subscriptions <= old(subscriptions)
      ensures forall s :: s in all ==> Of(s) == Offered(old(Of(s)), published, queueSize)
    {
      var todo := subscriptions;
      while todo != {}
        invariant todo <= subscriptions <= old(subscriptions)
        invariant forall s :: s in all && s in todo ==> Of(s) == old(Of(s))
        invariant forall s :: s in all && s !in todo ==> Of(s) == Offered(old(Of(s)), published, queueSize)
        decreases |todo|
      {
        var subscription :| subscription in todo;
        todo := todo - {subscription};
        Offer(subscription, published);
      }
    }

    method Offer(subscription: EventSubscription, published: PublishedEvent)
      requires subscription in subscriptions
      modifies this`subscriptions, subscription`queue
      ensures Of(subscription) == Offered(old(Of(subscription)), published, queueSize)
      ensures old(subscriptions) - {subscription} <= subscriptions <= old(subscriptions)
    {
      if |subscription.queue| < queueSize {
        subscription.queue := subscription.queue + [Event(published)];
      } else {
        subscriptions := subscriptions - {subscription};
        subscription.Signal(Overflow(published.id));
      }
    }

    method Unsubscribe(subscription: EventSubscription)
      modifies this`subscriptions
      ensures subscriptions == old(subscriptions) - {subscription}
    {
      subscriptions := subscriptions - {subscription};
    }

    method Close()
      requires Valid()
      modifies this, subscriptions
      ensures Valid() && closed && log == old(log) && all == old(all)
      ensures forall s :: s in all ==> Of(s) == Disconnected(old(Of(s)))
    {
      if closed {
        return;
      }
      DisconnectSubscribers();
      closed := true;
    }

    /** Ends every feed; the publisher itself stays open. */
    method DisconnectSubscribers()
      requires Valid()
      modifies this`subscriptions, subscriptions
      ensures Valid() && subscriptions == {}
      ensures forall s :: s in all ==> Of(s) == Disconnected(old(Of(s)))
    {
      EndFeeds();
      forall s | s in all ensures Faithful(Of(s), log, queueSize) {
        LeavingKeeps(old(Of(s)), log, queueSize);
      }
    }

    method EndFeeds()
      requires subscriptions <= all
      modifies this`subscriptions, subscriptions
      ensures subscriptions == {}
      ensures forall s :: s in all ==> Of(s) == Disconnected(old(Of(s)))
    {
      var todo := subscriptions;
      subscriptions := {};
      while todo != {}
        invariant todo <= old(subscriptions) && subscriptions == {}
        invariant forall s :: s in all && s in todo ==> s.View(true) == old(Of(s))
        invariant forall s :: s in all && s !in todo ==> Of(s) == Disconnected(old(Of(s)))
        decreases |todo|
      {
        var subscription :| subscription in todo;
        todo := todo - {subscription};
        subscription.Signal(Closed);
      }
    }
  }
}
