/** The limit on parallel requests to one endpoint: a counter of granted requests and a queue of
    channels, one per waiting request. A request gives its place back when it is done, and also
    when its context ends while it still waits. */
module Limiter {
  import opened Base

  type Key = nat
  type Id = nat      // a request, and the channel it waits on

  datatype Queue = Queue(counter: int, waiting: seq<Id>)

  type Queues = map<Key, Queue>

  /** The limit in force: none given means none but that of the counter's type. */
  function Bound(endpointLimit: int): (limit: int)
    ensures 1 <= limit
  {
    if endpointLimit <= 0 then MAX_INT64 else endpointLimit
  }

  /** Entering: the new queues, and whether the channel is closed at once. */
  function Entered(q: Queues, limit: int, key: Key, id: Id): (Queues, bool) {
    if key !in q then (q[key := Queue(1, [])], true)
    else if q[key].counter < limit then (q[key := Queue(q[key].counter + 1, q[key].waiting)], true)
    else (q[key := Queue(q[key].counter, q[key].waiting + [id])], false)
  }

  /** Leaving: the new queues, and the channel closed by it. */
  function Left(q: Queues, key: Key): (Queues, Option<Id>) {
    if key !in q then (q, None)
    else if |q[key].waiting| > 0 then (q[key := Queue(q[key].counter, q[key].waiting[1..])], Some(q[key].waiting[0]))
    else if q[key].counter == 1 then (q - {key}, None)
    else (q[key := Queue(q[key].counter - 1, [])], None)
  }

  class EndpointLimiter {
    const limit: int
    var queues: Queues

    constructor (endpointLimit: int)
      ensures limit == Bound(endpointLimit) && queues == map[]
    {
      limit := Bound(endpointLimit);
      queues := map[];
    }

    method AcquireEndpoint(key: Key, id: Id) returns (granted: bool)
      modifies this
      ensures (queues, granted) == Entered(old(queues), limit, key, id)
    {
      if key !in queues {
        queues := queues[key := Queue(1, [])];
        return true;
      }
      var value := queues[key];
      if value.counter < limit {
        queues := queues[key := value.(counter := value.counter + 1)];
        return true;
      }
      queues := queues[key := value.(waiting := value.waiting + [id])];
      return false;
    }

    method ReleaseEndpoint(key: Key) returns (closed: Option<Id>)
      modifies this
      ensures (queues, closed) == Left(old(queues), key)
    {
      if key !in queues {
        return None;
      }
      var value := queues[key];
      if |value.waiting| > 0 {
        queues := queues[key := value.(waiting := value.waiting[1..])];
        return Some(value.waiting[0]);
      }
      value := value.(counter := value.counter - 1);
      if value.counter == 0 {
        queues := queues - {key};
      } else {
        queues := queues[key := value];
      }
      return None;
    }
  }

  // ---------------------------------------------------------------- requests

  datatype Phase =
    | Waiting     // in the select: channel against context
    | Running
    | Done        // has given its place back

  datatype Request = Request(key: Key, phase: Phase)

  datatype System = System(
    queues: Queues,
    requests: map<Id, Request>,
    closed: set<Id>,             // channels closed so far
    arrived: seq<Id>,            // requests in order of arrival
    granted: seq<Id>)            // channels in the order they were closed

  const START := System(map[], map[], {}, [], [])

  datatype Event =
    | Arrive(id: Id, key: Key)
    | Proceed(id: Id)            // the select takes the closed channel
    | Cancel(id: Id)             // the select takes the ended context
    | Finish(id: Id)

  function Released(s: System, id: Id): System
    requires id in s.requests
  {
    var (q, c) := Left(s.queues, s.requests[id].key);
    s.(queues := q, requests := s.requests[id := s.requests[id].(phase := Done)],
       closed := if c.Some? then s.closed + {c.value} else s.closed,
       granted := if c.Some? then s.granted + [c.value] else s.granted)
  }

  function Next(s: System, limit: int, e: Event): System {
    match e
    case Arrive(id, key) =>
      if id in s.requests then s
      else
        var (q, now) := Entered(s.queues, limit, key, id);
        s.(queues := q, requests := s.requests[id := Request(key, Waiting)], arrived := s.arrived + [id],
           closed := if now then s.closed + {id} else s.closed,
           granted := if now then s.granted + [id] else s.granted)
    case Proceed(id) =>
      if id in s.requests && s.requests[id].phase.Waiting? && id in s.closed
      then s.(requests := s.requests[id := s.requests[id].(phase := Running)]) else s
    case Cancel(id) => if id in s.requests && s.requests[id].phase.Waiting? then Released(s, id) else s
    case Finish(id) => if id in s.requests && s.requests[id].phase.Running? then Released(s, id) else s
  }

  function Run(limit: int, events: seq<Event>): System {
    if events == [] then START else Next(Run(limit, events[..|events| - 1]), limit, events[|events| - 1])
  }

  /** The limiter object under any sequence of arrivals, cancellations and completions: the queues
      it keeps, the channels it closes and the order it closes them in are those of the run. */
  method Drive(endpointLimit: int, events: seq<Event>) returns (s: System)
    ensures s == Run(Bound(endpointLimit), events)
  {
    hide Entered, Left;
    var limiter := new EndpointLimiter(endpointLimit);
    var requests, closed, arrived, granted := START.requests, START.closed, START.arrived, START.granted;
    for i := 0 to |events|
      invariant fresh(limiter) && limiter.limit == Bound(endpointLimit)
      invariant Run(limiter.limit, events[..i]) == System(limiter.queues, requests, closed, arrived, granted)
    {
      RunStep(limiter.limit, events, i);
      match events[i] {
        case Arrive(id, key) =>
          if id !in requests {
            var now := limiter.AcquireEndpoint(key, id);
            requests, arrived := requests[id := Request(key, Waiting)], arrived + [id];
            if now {
              closed, granted := closed + {id}, granted + [id];
            }
          }
        case Proceed(id) =>
          if id in requests && requests[id].phase.Waiting? && id in closed {
            requests := requests[id := requests[id].(phase := Running)];
          }
        case Cancel(_) | Finish(_) =>
          var id := events[i].id;
          if id in requests && requests[id].phase == (if events[i].Cancel? then Waiting else Running) {
            var handed := limiter.ReleaseEndpoint(requests[id].key);
            requests := requests[id := requests[id].(phase := Done)];
            if handed.Some? {
              closed, granted := closed + {handed.value}, granted + [handed.value];
            }
          }
      }
    }
    assert events[..|events|] == events;
    s := System(limiter.queues, requests, closed, arrived, granted);
  }

  // ---------------------------------------------------------------- what is counted

  ghost predicate Active(s: System, key: Key, id: Id) {
    id in s.requests && s.requests[id].key == key && !s.requests[id].phase.Done?
  }

  /** Requests that hold a place: the channel is closed, and the place not given back. */
  ghost function Holding(s: System, key: Key): set<Id> {
    set id | id in s.requests && Active(s, key, id) && id in s.closed
  }

  /** Everything acquired and not released. */
  ghost function Unreleased(s: System, key: Key): set<Id> {
    set id | id in s.requests && Active(s, key, id)
  }

  function WaitingOf(s: System, key: Key): seq<Id> {
    if key in s.queues then s.queues[key].waiting else []
  }

  function Counter(s: System, key: Key): int {
    if key in s.queues then s.queues[key].counter else 0
  }

  /** Channels of cancelled requests that are still queued. */
  ghost function Ghosts(s: System, key: Key): set<Id> {
    set id | id in WaitingOf(s, key) && id in s.requests && s.requests[id].phase.Done?
  }

  ghost predicate Distinct(ids: seq<Id>) {
    forall i, j :: 0 <= i < j < |ids| ==> ids[i] != ids[j]
  }

  /** Channels of a key, in the given order. */
  ghost function Of(ids: seq<Id>, s: System, key: Key): seq<Id> {
    if ids == [] then []
    else
      var last := ids[|ids| - 1];
      Of(ids[..|ids| - 1], s, key) + if last in s.requests && s.requests[last].key == key then [last] else []
  }

  /** A queue exists only behind a full counter, and holds exactly the channels not yet closed. */
  ghost predicate Queued(s: System, limit: int, key: Key) {
    && (key in s.queues ==> 1 <= s.queues[key].counter <= limit)
    && (WaitingOf(s, key) != [] ==> Counter(s, key) == limit)
    && Distinct(WaitingOf(s, key))
    && (forall id :: id in WaitingOf(s, key) ==> id in s.requests && s.requests[id].key == key && id !in s.closed
                                                 && !s.requests[id].phase.Running?)
    && (forall id :: Active(s, key, id) && id !in s.closed ==> id in WaitingOf(s, key))
  }

  ghost predicate Exact(s: System, key: Key) {
    |Holding(s, key)| == Counter(s, key) + |Ghosts(s, key)|
  }

  /** Channels are closed in the order the requests arrived. */
  ghost predicate Fifo(s: System, key: Key) {
    Of(s.arrived, s, key) == Of(s.granted, s, key) + WaitingOf(s, key)
  }

  ghost predicate QueueOk(s: System, limit: int, key: Key) {
    Queued(s, limit, key) && Exact(s, key) && Fifo(s, key)
  }

  ghost predicate Inv(s: System, limit: int) {
    && (forall key :: QueueOk(s, limit, key))
    && (forall id :: id in s.closed || id in s.arrived || id in s.granted ==> id in s.requests)
    && (forall id :: id in s.requests && s.requests[id].phase.Running? ==> id in s.closed)
  }

  // ---------------------------------------------------------------- every step keeps it

  lemma {:induction false} OfSame(ids: seq<Id>, s: System, s': System, key: Key)
    requires forall id :: id in ids ==>
      ((id in s.requests && s.requests[id].key == key) <==> (id in s'.requests && s'.requests[id].key == key))
    ensures Of(ids, s', key) == Of(ids, s, key)
    decreases |ids|
  {
    if ids != [] {
      OfSame(ids[..|ids| - 1], s, s', key);
    }
  }

  lemma OfOneMore(ids: seq<Id>, id: Id, s: System, key: Key)
    ensures Of(ids + [id], s, key) == Of(ids, s, key) + if id in s.requests && s.requests[id].key == key then [id] else []
  {
    assert (ids + [id])[..|ids|] == ids;
  }

  /** A step for one key leaves the others alone. */
  lemma OtherKey(s: System, s': System, limit: int, key: Key, id: Id)
    requires Inv(s, limit)
    requires (key in s'.queues <==> key in s.queues) && (key in s.queues ==> s'.queues[key] == s.queues[key])
    requires forall r :: r != id ==> (r in s'.requests <==> r in s.requests)
    requires forall r :: r != id && r in s.requests ==> s'.requests[r] == s.requests[r]
    requires id in s.requests ==> s.requests[id].key != key
    requires id in s'.requests && s'.requests[id].key != key
    requires forall r :: r in s.requests && s.requests[r].key == key ==> (r in s'.closed <==> r in s.closed)
    requires s'.arrived == s.arrived || s'.arrived == s.arrived + [id]
    requires s'.granted == s.granted || exists g :: g in s'.requests && s'.requests[g].key != key && s'.granted == s.granted + [g]
    ensures QueueOk(s', limit, key)
  {
    hide Of, Distinct;
    assert QueueOk(s, limit, key);
    assert Holding(s', key) == Holding(s, key);
    assert Ghosts(s', key) == Ghosts(s, key);
    OfSame(s.arrived, s, s', key);
    OfSame(s.granted, s, s', key);
    OfOneMore(s.arrived, id, s', key);
    if s'.granted != s.granted {
      var g :| g in s'.requests && s'.requests[g].key != key && s'.granted == s.granted + [g];
      OfOneMore(s.granted, g, s', key);
    }
  }

  lemma ArriveQueues(s: System, limit: int, id: Id, key: Key)
    requires Queued(s, limit, key) && 1 <= limit && id !in s.requests && id !in s.closed
    ensures Queued(Next(s, limit, Arrive(id, key)), limit, key)
  {
    var s' := Next(s, limit, Arrive(id, key));
    assert id !in WaitingOf(s, key);
  }

  lemma ArriveCounts(s: System, limit: int, id: Id, key: Key)
    requires Queued(s, limit, key) && Exact(s, key) && id !in s.requests && id !in s.closed
    ensures Exact(Next(s, limit, Arrive(id, key)), key)
  {
    hide Distinct, Ghosts, Holding;
    var s' := Next(s, limit, Arrive(id, key));
    ArriveGhosts(s, limit, id, key);
    ArriveHolds(s, limit, id, key);
  }

  lemma ArriveGhosts(s: System, limit: int, id: Id, key: Key)
    requires Queued(s, limit, key) && id !in s.requests
    ensures Ghosts(Next(s, limit, Arrive(id, key)), key) == Ghosts(s, key)
  {
    hide Distinct;
  }

  lemma ArriveHolds(s: System, limit: int, id: Id, key: Key)
    requires id !in s.requests && id !in s.closed
    ensures id !in Holding(s, key)
    ensures var s' := Next(s, limit, Arrive(id, key));
            Holding(s', key) == Holding(s, key) + if id in s'.closed then {id} else {}
  {
  }

  lemma ArriveInOrder(s: System, limit: int, id: Id, key: Key)
    requires Inv(s, limit) && id !in s.requests
    ensures Fifo(Next(s, limit, Arrive(id, key)), key)
  {
    hide Queued, Exact, Of;
    var s' := Next(s, limit, Arrive(id, key));
    assert QueueOk(s, limit, key);
    OfSame(s.arrived, s, s', key);
    OfSame(s.granted, s, s', key);
    OfOneMore(s.arrived, id, s', key);
    OfOneMore(s.granted, id, s', key);
    FullOrIdle(s, limit, key);
  }

  lemma FullOrIdle(s: System, limit: int, key: Key)
    requires Queued(s, limit, key)
    ensures Counter(s, key) < limit ==> WaitingOf(s, key) == []
  {
  }

  lemma ArriveAtKey(s: System, limit: int, id: Id, key: Key)
    requires Inv(s, limit) && 1 <= limit && id !in s.requests
    ensures QueueOk(Next(s, limit, Arrive(id, key)), limit, key)
  {
    hide Queued, Exact, Fifo;
    assert QueueOk(s, limit, key);
    ArriveQueues(s, limit, id, key);
    ArriveCounts(s, limit, id, key);
    ArriveInOrder(s, limit, id, key);
  }

  lemma ArriveKeeps(s: System, limit: int, id: Id, key: Key)
    requires Inv(s, limit) && 1 <= limit
    ensures Inv(Next(s, limit, Arrive(id, key)), limit)
  {
    hide QueueOk;
    if id !in s.requests {
      var s' := Next(s, limit, Arrive(id, key));
      forall k
        ensures QueueOk(s', limit, k)
      {
        if k == key {
          ArriveAtKey(s, limit, id, key);
        } else {
          OtherKey(s, s', limit, k, id);
        }
      }
    }
  }

  lemma ProceedKeeps(s: System, limit: int, id: Id)
    requires Inv(s, limit)
    ensures Inv(Next(s, limit, Proceed(id)), limit)
  {
    var s' := Next(s, limit, Proceed(id));
    forall k
      ensures QueueOk(s', limit, k)
    {
      assert QueueOk(s, limit, k);
      assert Holding(s', k) == Holding(s, k);
      assert Ghosts(s', k) == Ghosts(s, k);
      OfSame(s.arrived, s, s', k);
      OfSame(s.granted, s, s', k);
    }
  }

  lemma HandOverQueues(s: System, limit: int, id: Id)
    requires id in s.requests && !s.requests[id].phase.Done? && Queued(s, limit, s.requests[id].key)
    requires WaitingOf(s, s.requests[id].key) != []
    ensures Queued(Released(s, id), limit, s.requests[id].key)
  {
    var queue := WaitingOf(s, s.requests[id].key);
    assert forall r :: r in queue <==> r == queue[0] || r in queue[1..];
  }

  lemma HandOverCounts(s: System, limit: int, id: Id)
    requires id in s.requests && !s.requests[id].phase.Done?
    requires Queued(s, limit, s.requests[id].key) && Exact(s, s.requests[id].key)
    requires WaitingOf(s, s.requests[id].key) != []
    ensures Exact(Released(s, id), s.requests[id].key)
  {
    var key := s.requests[id].key;
    var s' := Released(s, id);
    var queue := WaitingOf(s, key);
    var head := queue[0];
    assert head in queue;
    assert forall r :: r in queue <==> r == head || r in queue[1..];
    HandOverHolding(s, limit, id);
    HandOverGhosts(s, limit, id);
    assert Active(s, key, id);
    assert id in Holding(s, key) <==> id in s.closed;
    assert head in Ghosts(s, key) <==> s.requests[head].phase.Done?;
  }

  lemma HandOverHolding(s: System, limit: int, id: Id)
    requires id in s.requests && !s.requests[id].phase.Done?
    requires Queued(s, limit, s.requests[id].key) && WaitingOf(s, s.requests[id].key) != []
    ensures var head := WaitingOf(s, s.requests[id].key)[0];
            head in s.requests && head !in Holding(s, s.requests[id].key)
            && Holding(Released(s, id), s.requests[id].key)
               == Holding(s, s.requests[id].key) - {id} + if s.requests[head].phase.Done? || head == id then {} else {head}
  {
    hide Distinct;
    var queue := WaitingOf(s, s.requests[id].key);
    assert queue[0] in queue;
  }

  lemma HandOverGhosts(s: System, limit: int, id: Id)
    requires id in s.requests && !s.requests[id].phase.Done?
    requires Queued(s, limit, s.requests[id].key) && WaitingOf(s, s.requests[id].key) != []
    ensures var head := WaitingOf(s, s.requests[id].key)[0];
            id !in Ghosts(s, s.requests[id].key)
            && Ghosts(Released(s, id), s.requests[id].key)
               == Ghosts(s, s.requests[id].key) - {head} + if id in s.closed || head == id then {} else {id}
  {
    var key := s.requests[id].key;
    var queue := WaitingOf(s, key);
    assert Active(s, key, id);
    assert forall r :: r in queue <==> r == queue[0] || r in queue[1..];
    assert queue[0] !in queue[1..];
  }

  lemma HandOverInOrder(s: System, limit: int, id: Id)
    requires Inv(s, limit) && id in s.requests && WaitingOf(s, s.requests[id].key) != []
    ensures Fifo(Released(s, id), s.requests[id].key)
  {
    hide Queued, Exact, Of;
    var key := s.requests[id].key;
    var s' := Released(s, id);
    assert QueueOk(s, limit, key);
    var queue := WaitingOf(s, key);
    HeadIsKnown(s, limit, key);
    OfSame(s.arrived, s, s', key);
    OfSame(s.granted, s, s', key);
    OfOneMore(s.granted, queue[0], s', key);
    assert queue == [queue[0]] + queue[1..];
  }

  /** Giving a place back to a queue that is not empty: the first channel is closed. */
  lemma HandOver(s: System, limit: int, id: Id)
    requires Inv(s, limit) && id in s.requests && !s.requests[id].phase.Done?
    requires WaitingOf(s, s.requests[id].key) != []
    ensures QueueOk(Released(s, id), limit, s.requests[id].key)
  {
    hide Queued, Exact, Fifo;
    assert QueueOk(s, limit, s.requests[id].key);
    HandOverQueues(s, limit, id);
    HandOverCounts(s, limit, id);
    HandOverInOrder(s, limit, id);
  }

  /** Giving a place back when nobody waits: the counter goes down. */
  lemma CountDown(s: System, limit: int, id: Id)
    requires Inv(s, limit) && id in s.requests && !s.requests[id].phase.Done?
    requires WaitingOf(s, s.requests[id].key) == []
    ensures QueueOk(Released(s, id), limit, s.requests[id].key)
    ensures s.requests[id].key in s.queues
  {
    var key := s.requests[id].key;
    var s' := Released(s, id);
    assert QueueOk(s, limit, key);
    assert Active(s, key, id);
    assert id in Holding(s, key);
    assert Ghosts(s, key) == {};
    OfSame(s.arrived, s, s', key);
    OfSame(s.granted, s, s', key);
    assert Holding(s', key) == Holding(s, key) - {id};
    assert Ghosts(s', key) == {};
  }

  lemma ReleaseKeeps(s: System, limit: int, id: Id)
    requires Inv(s, limit) && id in s.requests && !s.requests[id].phase.Done?
    ensures Inv(Released(s, id), limit)
  {
    var key := s.requests[id].key;
    var s' := Released(s, id);
    HeadIsKnown(s, limit, key);
    forall k
      ensures QueueOk(s', limit, k)
    {
      if k != key {
        OtherKey(s, s', limit, k, id);
      } else if WaitingOf(s, key) != [] {
        HandOver(s, limit, id);
      } else {
        CountDown(s, limit, id);
      }
    }
  }

  lemma HeadIsKnown(s: System, limit: int, key: Key)
    requires QueueOk(s, limit, key)
    ensures WaitingOf(s, key) != [] ==> var head := WaitingOf(s, key)[0]; head in s.requests && s.requests[head].key == key
  {
    if WaitingOf(s, key) != [] {
      assert WaitingOf(s, key)[0] in WaitingOf(s, key);
    }
  }

  lemma StepKeepsInv(s: System, limit: int, e: Event)
    requires Inv(s, limit) && 1 <= limit
    ensures Inv(Next(s, limit, e), limit)
  {
    hide Inv;
    match e
    case Arrive(id, key) => ArriveKeeps(s, limit, id, key);
    case Proceed(id) => ProceedKeeps(s, limit, id);
    case Cancel(id) => if id in s.requests && s.requests[id].phase.Waiting? { ReleaseKeeps(s, limit, id); }
    case Finish(id) => if id in s.requests && s.requests[id].phase.Running? { ReleaseKeeps(s, limit, id); }
  }

  lemma {:induction false} RunKeepsInv(limit: int, events: seq<Event>)
    requires 1 <= limit
    ensures Inv(Run(limit, events), limit)
    decreases |events|
  {
    hide Inv;
    if events == [] {
      StartKeeps(limit);
    } else {
      RunKeepsInv(limit, events[..|events| - 1]);
      StepKeepsInv(Run(limit, events[..|events| - 1]), limit, events[|events| - 1]);
    }
  }

  lemma StartKeeps(limit: int)
    ensures Inv(START, limit)
  {
    forall key
      ensures QueueOk(START, limit, key)
    {
      assert Holding(START, key) == {} && Ghosts(START, key) == {};
    }
  }

  // ---------------------------------------------------------------- what follows in every run

  ghost function Elems(ids: seq<Id>): set<Id> {
    set id | id in ids
  }

  lemma {:induction false} DistinctSize(ids: seq<Id>)
    requires Distinct(ids)
    ensures |Elems(ids)| == |ids|
    decreases |ids|
  {
    if ids == [] {
      assert Elems(ids) == {};
    } else {
      var init, last := ids[..|ids| - 1], ids[|ids| - 1];
      DistinctSize(init);
      assert forall i :: 0 <= i < |init| ==> init[i] == ids[i];
      assert last !in init;
      assert Elems(ids) == Elems(init) + {last};
    }
  }

  lemma UnreleasedParts(s: System, limit: int, key: Key)
    requires Queued(s, limit, key)
    ensures |Unreleased(s, key)| + |Ghosts(s, key)| == |Holding(s, key)| + |WaitingOf(s, key)|
  {
    hide Distinct, WaitingOf;
    var queue := WaitingOf(s, key);
    var patient := set id | id in queue && id !in Ghosts(s, key);
    DistinctSize(queue);
    assert Elems(queue) == patient + Ghosts(s, key);
    assert Unreleased(s, key) == Holding(s, key) + patient;
  }

  /** Limiter exactness, in every state of every run and for every endpoint. Counter and queue
      together count what is acquired and not released. The requests holding a place are the
      counter's and one more for each cancelled request still queued, so the limit is kept exactly
      when there is none. A queue forms only at the limit, and places are given in order of arrival. */
  lemma LimiterIsExact(limit: int, events: seq<Event>, key: Key)
    requires 1 <= limit
    ensures var s := Run(limit, events);
            && Counter(s, key) + |WaitingOf(s, key)| == |Unreleased(s, key)|
            && |Holding(s, key)| == Counter(s, key) + |Ghosts(s, key)|
            && (|Holding(s, key)| <= limit <==> Ghosts(s, key) == {})
            && (WaitingOf(s, key) != [] ==> Counter(s, key) == limit)
            && Of(s.arrived, s, key) == Of(s.granted, s, key) + WaitingOf(s, key)
  {
    hide Run;
    var s := Run(limit, events);
    RunKeepsInv(limit, events);
    assert QueueOk(s, limit, key);
    UnreleasedParts(s, limit, key);
    if Ghosts(s, key) != {} {
      GhostsAreQueued(s, key);
    }
  }

  lemma GhostsAreQueued(s: System, key: Key)
    requires Ghosts(s, key) != {}
    ensures WaitingOf(s, key) != [] && |Ghosts(s, key)| >= 1
  {
    var id :| id in Ghosts(s, key);
    assert {id} <= Ghosts(s, key);
    SubsetSize({id}, Ghosts(s, key));
  }

  // ---------------------------------------------------------------- the limit, event by event

  /** A cancellation that hits a queued request other than the first. */
  ghost predicate Strays(s: System, e: Event, key: Key) {
    && e.Cancel? && e.id in s.requests && s.requests[e.id] == Request(key, Waiting)
    && e.id in WaitingOf(s, key) && WaitingOf(s, key)[0] != e.id
  }

  ghost predicate StrayAt(limit: int, events: seq<Event>, i: nat, key: Key)
    requires i < |events|
  {
    Strays(Run(limit, events[..i]), events[i], key)
  }

  ghost predicate Keeps(limit: int, events: seq<Event>, i: nat, key: Key)
    requires i <= |events|
  {
    |Holding(Run(limit, events[..i]), key)| <= limit
  }

  /** An event other than a stray cancellation adds no cancelled request to the queue. */
  lemma NoNewGhosts(s: System, limit: int, e: Event, key: Key)
    requires Inv(s, limit) && Ghosts(s, key) == {} && !Strays(s, e, key)
    ensures Ghosts(Next(s, limit, e), key) == {}
  {
    hide Exact, Fifo;
    assert QueueOk(s, limit, key);
    var s' := Next(s, limit, e);
    if s' != s && (e.Cancel? || e.Finish?) && s.requests[e.id].key == key && WaitingOf(s, key) != [] {
      assert Active(s, key, e.id);
      HandOverGhosts(s, limit, e.id);
    } else if e.Arrive? && e.id !in s.requests && e.key == key {
      ArriveGhosts(s, limit, e.id, key);
    } else {
      assert Ghosts(s', key) <= Ghosts(s, key);
    }
  }

  lemma StrayIsAGhost(s: System, limit: int, e: Event, key: Key)
    requires Queued(s, limit, key) && Strays(s, e, key)
    ensures e.id in Ghosts(Next(s, limit, e), key)
  {
    var queue := WaitingOf(s, key);
    assert queue == [queue[0]] + queue[1..];
    assert e.id in queue[1..];
  }

  lemma {:induction false} NoStrayNoGhost(limit: int, events: seq<Event>, key: Key, i: nat)
    requires 1 <= limit && i <= |events|
    requires forall j :: 0 <= j < i ==> !StrayAt(limit, events, j, key)
    ensures Ghosts(Run(limit, events[..i]), key) == {}
  {
    hide Inv, Strays, Next;
    if i == 0 {
      assert events[..0] == [];
    } else {
      NoStrayNoGhost(limit, events, key, i - 1);
      RunStep(limit, events, i - 1);
      RunKeepsInv(limit, events[..i - 1]);
      assert !StrayAt(limit, events, i - 1, key);
      NoNewGhosts(Run(limit, events[..i - 1]), limit, events[i - 1], key);
    }
  }

  /** The limit holds at an endpoint in every state of a run if and only if no request queued there
      is cancelled while another is queued before it. */
  lemma LimitIsKeptIff(limit: int, events: seq<Event>, key: Key)
    requires 1 <= limit
    ensures (forall i :: 0 <= i <= |events| ==> Keeps(limit, events, i, key))
            <==> forall i :: 0 <= i < |events| ==> !StrayAt(limit, events, i, key)
  {
    hide Inv, Strays, Next, Run, Ghosts, Holding;
    if forall i :: 0 <= i < |events| ==> !StrayAt(limit, events, i, key) {
      forall i | 0 <= i <= |events|
        ensures Keeps(limit, events, i, key)
      {
        NoStrayNoGhost(limit, events, key, i);
        LimiterIsExact(limit, events[..i], key);
      }
    } else {
      var i :| 0 <= i < |events| && StrayAt(limit, events, i, key);
      RunKeepsInv(limit, events[..i]);
      InvAt(Run(limit, events[..i]), limit, key);
      StrayIsAGhost(Run(limit, events[..i]), limit, events[i], key);
      RunStep(limit, events, i);
      LimiterIsExact(limit, events[..i + 1], key);
      assert !Keeps(limit, events, i + 1, key);
    }
  }

  lemma InvAt(s: System, limit: int, key: Key)
    requires Inv(s, limit)
    ensures QueueOk(s, limit, key)
  {}

  // ---------------------------------------------------------------- waiting ends

  /** The events that give a place back at an endpoint. */
  ghost predicate Releases(s: System, e: Event, key: Key) {
    && (e.Cancel? || e.Finish?) && e.id in s.requests && s.requests[e.id].key == key
    && s.requests[e.id].phase == (if e.Cancel? then Waiting else Running)
  }

  /** How many places are given back at an endpoint between two moments of a run. */
  ghost function ReleasesIn(limit: int, events: seq<Event>, since: nat, until: nat, key: Key): nat
    requires until <= |events|
    decreases until
  {
    if until <= since then 0
    else
      ReleasesIn(limit, events, since, until - 1, key)
      + if Releases(Run(limit, events[..until - 1]), events[until - 1], key) then 1 else 0
  }

  /** The queue after one event: one shorter at the front or the same, and maybe longer behind. */
  lemma QueueMoves(s: System, limit: int, e: Event, key: Key, k: nat)
    requires Inv(s, limit) && k < |WaitingOf(s, key)|
    ensures var s' := Next(s, limit, e);
            var id := WaitingOf(s, key)[k];
            var d := if Releases(s, e, key) then 1 else 0;
            if k < d then id in s'.closed
            else k - d < |WaitingOf(s', key)| && WaitingOf(s', key)[k - d] == id && id !in s'.closed
  {
    hide Exact, Fifo;
    assert QueueOk(s, limit, key);
    var s' := Next(s, limit, e);
    var queue := WaitingOf(s, key);
    assert queue[k] in queue && queue[0] in queue;
    if s' != s && (e.Cancel? || e.Finish?) && s.requests[e.id].key != key {
      var other := s.requests[e.id].key;
      assert QueueOk(s, limit, other);
      HeadIsKnown(s, limit, other);
    }
  }

  lemma ClosedStays(s: System, limit: int, e: Event)
    ensures s.closed <= Next(s, limit, e).closed
  {}

  /** A queued channel is closed by the release after as many as there are channels before it,
      neither earlier nor later, whatever else happens. */
  lemma {:induction false} WaitingEnds(limit: int, events: seq<Event>, since: nat, until: nat, key: Key, k: nat)
    requires 1 <= limit && since <= until <= |events| && k < |WaitingOf(Run(limit, events[..since]), key)|
    ensures var id := WaitingOf(Run(limit, events[..since]), key)[k];
            var n := ReleasesIn(limit, events, since, until, key);
            var s := Run(limit, events[..until]);
            && (id in s.closed <==> k < n)
            && (n <= k ==> k - n < |WaitingOf(s, key)| && WaitingOf(s, key)[k - n] == id)
    decreases until
  {
    hide Inv, Next, Run, Releases, WaitingOf;
    if since == until {
      RunKeepsInv(limit, events[..since]);
      QueuedIsOpen(Run(limit, events[..since]), limit, key, k);
    } else {
      WaitingEnds(limit, events, since, until - 1, key, k);
      var s := Run(limit, events[..until - 1]);
      var n := ReleasesIn(limit, events, since, until - 1, key);
      RunStep(limit, events, until - 1);
      RunKeepsInv(limit, events[..until - 1]);
      ClosedStays(s, limit, events[until - 1]);
      if n <= k {
        QueueMoves(s, limit, events[until - 1], key, k - n);
      }
    }
  }

  lemma QueuedIsOpen(s: System, limit: int, key: Key, k: nat)
    requires Inv(s, limit) && k < |WaitingOf(s, key)|
    ensures WaitingOf(s, key)[k] !in s.closed
  {
    assert QueueOk(s, limit, key);
    assert WaitingOf(s, key)[k] in WaitingOf(s, key);
  }

  /** Nobody waits for nothing: a request that has neither a place nor given up has its channel in
      the queue, and then at least as many requests as the limit allows hold a place, each of which
      gives it back by its own next steps. */
  lemma NobodyIsStranded(limit: int, events: seq<Event>, id: Id)
    requires 1 <= limit
    requires var s := Run(limit, events); id in s.requests && s.requests[id].phase.Waiting? && id !in s.closed
    ensures var s := Run(limit, events);
            var key := s.requests[id].key;
            && id in WaitingOf(s, key)
            && |Holding(s, key)| >= limit
            && forall h :: h in Holding(s, key) ==> Releases(Next(s, limit, Proceed(h)), Finish(h), key)
  {
    hide Run;
    var s := Run(limit, events);
    RunKeepsInv(limit, events);
    assert QueueOk(s, limit, s.requests[id].key);
    assert Active(s, s.requests[id].key, id);
  }

  /** The limit can be passed: with a limit of one, the second of two waiters is cancelled, the
      first gets a place beside the request that has one already. */
  lemma LimitCanBePassed()
    ensures var events := [Arrive(0, 7), Arrive(1, 7), Arrive(2, 7), Cancel(2), Proceed(0), Proceed(1)];
            && |Holding(Run(1, events), 7)| == 2
            && forall id :: id in {0, 1} ==> id in Run(1, events).requests && Run(1, events).requests[id].phase.Running?
  {
    hide Holding, Run;
    var events := [Arrive(0, 7), Arrive(1, 7), Arrive(2, 7), Cancel(2), Proceed(0), Proceed(1)];
    RunStep(1, events, 0);
    RunStep(1, events, 1);
    RunStep(1, events, 2);
    assert events[..0] == [];
    RunOfNone(1);
    ThreeArrive();
    RunStep(1, events, 3);
    RunStep(1, events, 4);
    RunStep(1, events, 5);
    CancelAndProceed(Run(1, events[..3]));
    assert events[..6] == events;
    TwoRunning(Run(1, events));
  }

  lemma ThreeArrive()
    ensures var s := Next(Next(Next(START, 1, Arrive(0, 7)), 1, Arrive(1, 7)), 1, Arrive(2, 7));
            var w := Request(7, Waiting);
            && 7 in s.queues && s.queues[7].waiting == [1, 2]
            && s.requests == map[0 := w, 1 := w, 2 := w] && s.closed == {0}
  {
  }

  lemma CancelAndProceed(s: System)
    requires 7 in s.queues && s.queues[7].waiting == [1, 2] && s.closed == {0}
    requires var w := Request(7, Waiting); s.requests == map[0 := w, 1 := w, 2 := w]
    ensures var s' := Next(Next(Next(s, 1, Cancel(2)), 1, Proceed(0)), 1, Proceed(1));
            && s'.requests == map[0 := Request(7, Running), 1 := Request(7, Running), 2 := Request(7, Done)]
            && s'.closed == {0, 1}
  {
    var s1 := Next(s, 1, Cancel(2));
    assert s1.closed == {0, 1} && s1.requests[2] == Request(7, Done);
  }

  lemma RunOfNone(limit: int)
    ensures Run(limit, []) == START
  {}

  lemma TwoRunning(s: System)
    requires s.requests == map[0 := Request(7, Running), 1 := Request(7, Running), 2 := Request(7, Done)]
    requires s.closed == {0, 1}
    ensures |Holding(s, 7)| == 2
  {
    assert Holding(s, 7) == {0, 1};
  }

  lemma RunStep(limit: int, events: seq<Event>, i: nat)
    requires i < |events|
    ensures Run(limit, events[..i + 1]) == Next(Run(limit, events[..i]), limit, events[i])
  {
    assert events[..i + 1][..i] == events[..i];
  }
}
