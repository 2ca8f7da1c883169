/** Concurrent requests of Q-Block1 uploads. Each request passes up to four critical sections of
    the engine, and anything else the engine does may happen between them: other requests for
    the same upload, timers, expiry, closing. */
module Uploads {
  import opened Base
  import opened Transfer
  import opened Delivery
  import opened Engine

  type ThreadId = nat

  /** `replyKey` is where a response too large for one message is kept. */
  datatype Request = Request(p: Params, payload: seq<byte>, sequence: int, token: seq<byte>, replyKey: Key)

  /** What a request has left to do. */
  datatype Thread =
    | Arriving(key: Key, req: Request)
    | Reading(key: Key, id: Id, req: Request)
    | Claiming(key: Key, id: Id, req: Request)
    | Running(key: Key, id: Id, req: Request, blocks: Blocks)   // about to call the application
    | Copying(key: Key, id: Id, req: Request)                   // the answer is large: copy it
    | Storing(key: Key, id: Id, req: Request, snapshot: Id)     // ... keep the copy
    | Loading(key: Key, id: Id, req: Request)                   // ... and load its first block
    | Finishing(key: Key, id: Id, req: Request)                 // keep the answer
    | Failing(key: Key, id: Id, req: Request)                   // keep an error answer
    | Refusing(key: Key, req: Request)                          // the same, without a claim to the record
    | Ended

  /** A call of the application handler for an upload record. */
  datatype Call = Call(id: Id, body: seq<byte>)

  /** A final answer kept for a record. */
  datatype Kept = Kept(id: Id, reply: Reply)

  /** A request answered with what is kept for the record. */
  datatype Answer = Answer(sequence: int, id: Id, reply: Reply)

  /** The engine and what has come of its uploads. */
  datatype Core = Core(
    engine: State,
    calls: seq<Call>,
    repeats: seq<Id>,                  // records for which the handler was called once more, without a body
    shapes: map<Id, Layout>,           // of every record ever created
    owners: map<Id, Key>,              // the key each was created under
    history: map<Id, seq<Arrival>>,    // payloads offered to each record, in order
    stores: seq<Kept>,                 // answers kept, in order
    answers: seq<Answer>)              // answers replayed, in order

  datatype Server = Server(core: Core, threads: map<ThreadId, Thread>, requests: map<ThreadId, Request>)

  /** What the environment decides at a step. */
  datatype Choice = Choice(now: int, lifetime: int, maxBody: int, maxEntries: int, granted: bool,
                           response: Reply, slips: bool, fails: bool, large: bool, snapshot: Id, size: int, expires: int,
                           lookup: Key)

  datatype Event =
    | Arrives(thread: ThreadId, key: Key, req: Request)
    | Moves(thread: ThreadId, choice: Choice)
    | Happens(step: Step)              // anything the engine does for others

  predicate Foreign(s: Step) {
    !s.Admit? && !s.Add? && !s.ClaimIt? && !s.Store? && !s.FinalError?
  }

  /** Answers a request with what is kept for the record, under the request's own token, or not at
      all while nothing is kept. */
  function Answering(c: Core, id: Id, response: Option<Reply>, req: Request): Core {
    if response.Some? then c.(answers := c.answers + [Answer(req.sequence, id, response.value.(token := req.token))]) else c
  }

  /** A request's first section: what becomes of the core and of the request. `slips` stands for a
      request that cannot be parsed or read, `fails` for an answer that cannot be made. */
  function Arriving1(c: Core, key: Key, req: Request, x: Choice): (Core, Thread) {
    var (e, r) := AdmitUpload(c.engine, key, req.p, x.now, x.lifetime, x.maxBody, x.maxEntries, x.granted);
    var c1 := c.(engine := e);
    if x.slips then (c, Refusing(key, req))
    else
      match r
      case Rejected(_) => (c1, Refusing(key, req))
      case Replay(response) =>
        if x.fails || key !in e.uploads then (c1, Refusing(key, req))
        else (Answering(c1, e.uploads[key].id, response, req), Ended)
      case Proceed(id) =>
        (if id == c.engine.nextId
         then c1.(shapes := c.shapes[id := Layout(SzxSize(req.p.szx), req.p.size)], owners := c.owners[id := key],
                  history := c.history[id := []])
         else c1, Reading(key, id, req))
  }

  ghost function Reading1(c: Core, key: Key, id: Id, req: Request, x: Choice): (Core, Thread) {
    var (e, r) := AddPayload(c.engine, key, id, req.p, req.payload, x.now, x.granted);
    var c1 := c.(engine := e);
    if x.slips then (c, Refusing(key, req))
    else
      match r
      case Refused(_) => (c1, Refusing(key, req))
      case Replayed(response) => if x.fails then (c1, Refusing(key, req)) else (Answering(c1, id, response, req), Ended)
      case Waiting(_) => (Offered(c1, id, req), if x.fails then Refusing(key, req) else Ended)
      case Complete => (Offered(c1, id, req), Claiming(key, id, req))
  }

  function Offered(c: Core, id: Id, req: Request): Core {
    if id in c.history
    then c.(history := c.history[id := c.history[id] + [Arrival(req.p.num, req.p.more, req.payload)]])
    else c
  }

  function Claiming1(c: Core, key: Key, id: Id, req: Request): (Core, Thread) {
    var (e, r) := ClaimUpload(c.engine, key, id, req.sequence, req.token);
    (c.(engine := e),
     match r
     case Won(blocks) => Running(key, id, req, blocks)
     case Lost => Refusing(key, req)
     case AlreadyDone => Ended)
  }

  /** The reader of an incomplete body would be an error instead of a call. */
  ghost function Running1(c: Core, key: Key, id: Id, req: Request, blocks: Blocks, x: Choice): (Core, Thread) {
    if id in c.shapes && c.shapes[id].Valid() && AllStored(c.shapes[id], blocks)
    then (c.(calls := c.calls + [Call(id, Content(c.shapes[id], blocks))]),
          if x.large then Copying(key, id, req) else Finishing(key, id, req))
    else (c, Failing(key, id, req))
  }

  function Copying1(c: Core, key: Key, id: Id, req: Request, x: Choice): (Core, Thread) {
    var e := ReserveSnapshot(c.engine, x.snapshot, x.size, x.granted, x.granted);
    if x.snapshot in c.engine.snapshots || x.snapshot !in e.snapshots then (c.(engine := e), Failing(key, id, req))
    else if x.fails then (c.(engine := AbortSnapshot(e, x.snapshot)), Failing(key, id, req))
    else (c.(engine := e), Storing(key, id, req, x.snapshot))
  }

  function Storing1(c: Core, key: Key, id: Id, req: Request, snapshot: Id, x: Choice): (Core, Thread) {
    var e := c.engine;
    var kept := snapshot in e.snapshots && !e.outgoingClosed && (req.replyKey in e.outgoing || |e.outgoing| < MAX_ENTRIES);
    (c.(engine := StoreSnapshot(e, snapshot, req.replyKey, x.expires, None, false)),
     if kept then Loading(key, id, req) else Failing(key, id, req))
  }

  /** The stored answer, or another of the same identity in its place. */
  function Sought(e: State, req: Request, x: Choice): Key {
    if req.replyKey in e.outgoing then req.replyKey else x.lookup
  }

  /** Nothing is stored, or only something that has expired. */
  predicate Gone(e: State, key: Key, now: int) {
    key !in e.outgoing || e.outgoing[key].expires <= now
  }

  /** Loading the first block of the stored answer. When it is gone, the handler is called again. */
  function Loading1(c: Core, key: Key, id: Id, req: Request, x: Choice): (Core, Thread) {
    var sought := Sought(c.engine, req, x);
    var c1 := c.(engine := ExpireOutgoing(c.engine, sought, x.now));
    (if Gone(c.engine, sought, x.now) then c1.(repeats := c.repeats + [id]) else c1,
     if x.fails then Failing(key, id, req) else Finishing(key, id, req))
  }

  function Finishing1(c: Core, key: Key, id: Id, req: Request, x: Choice): (Core, Thread) {
    if x.fails then (c, Failing(key, id, req))
    else (c.(engine := StoreResponse(c.engine, key, id, x.response),
             stores := if key in c.engine.uploads && c.engine.uploads[key].id == id
                       then c.stores + [Kept(id, x.response)] else c.stores), Ended)
  }

  function Failing1(c: Core, key: Key, req: Request, x: Choice): (Core, Thread) {
    (c.(engine := StoreFinalError(c.engine, key, req.sequence, req.token, x.response),
        stores := if KeepsError(c.engine, key, req.sequence, req.token)
                  then c.stores + [Kept(c.engine.uploads[key].id, x.response)] else c.stores), Ended)
  }

  ghost function Move(c: Core, t: Thread, x: Choice): (Core, Thread) {
    match t
    case Arriving(key, req) => Arriving1(c, key, req, x)
    case Reading(key, id, req) => Reading1(c, key, id, req, x)
    case Claiming(key, id, req) => Claiming1(c, key, id, req)
    case Running(key, id, req, blocks) => Running1(c, key, id, req, blocks, x)
    case Copying(key, id, req) => Copying1(c, key, id, req, x)
    case Storing(key, id, req, snapshot) => Storing1(c, key, id, req, snapshot, x)
    case Loading(key, id, req) => Loading1(c, key, id, req, x)
    case Finishing(key, id, req) => Finishing1(c, key, id, req, x)
    case Failing(key, _, req) => Failing1(c, key, req, x)
    case Refusing(key, req) => Failing1(c, key, req, x)
    case Ended => (c, Ended)
  }

  ghost function Next(s: Server, ev: Event): Server {
    match ev
    case Arrives(t, key, req) =>
      if t in s.threads then s
      else
        var numbered := req.(sequence := t);    // the connection numbers every message it receives
        s.(threads := s.threads[t := Arriving(key, numbered)], requests := s.requests[t := numbered])
    case Happens(step) =>
      if Foreign(step) then s.(core := s.core.(engine := Apply(s.core.engine, step))) else s
    case Moves(t, x) =>
      if t !in s.threads then s
      else
        var (c, th) := Move(s.core, s.threads[t], x);
        s.(core := c, threads := s.threads[t := th])
  }

  // ---------------------------------------------------------------- invariant

  /** A record holds exactly what its history of payloads makes of it, and is charged for exactly
      the bytes it stores. */
  ghost predicate RecordOk(c: Core, u: Upload) {
    && Known(c, u.id) && c.shapes[u.id] == u.Shape()
    && u.blocks == ReceiveAll(u.Shape(), map[], c.history[u.id])
    && (if u.assembly then u.bytes == SumTo(u.blocks, u.Shape().Count()) else u.completed && u.bytes == 0)
  }

  ghost predicate Known(c: Core, id: Id) {
    id < c.engine.nextId && id in c.shapes && id in c.history && c.shapes[id].Valid()
  }

  /** What the application must be given for a record. */
  ghost predicate Assembled(c: Core, id: Id, blocks: Blocks) {
    && Known(c, id) && blocks == ReceiveAll(c.shapes[id], map[], c.history[id]) && AllStored(c.shapes[id], blocks)
  }

  /** The record, if it still exists, has been handed to the application. */
  ghost predicate Taken(e: State, id: Id) {
    forall k :: k in e.uploads && e.uploads[k].id == id ==> e.uploads[k].completed
  }

  /** The record, if it still exists, has all its blocks. */
  ghost predicate Full(e: State, id: Id) {
    forall k :: k in e.uploads && e.uploads[k].id == id ==> AllStored(e.uploads[k].Shape(), e.uploads[k].blocks)
  }

  ghost predicate Called(c: Core, id: Id) {
    exists i :: 0 <= i < |c.calls| && c.calls[i].id == id
  }

  ghost predicate ThreadOk(c: Core, t: Thread) {
    match t
    case Arriving(_, _) => true
    case Reading(_, id, _) => Known(c, id)
    case Claiming(_, id, _) => Known(c, id) && Full(c.engine, id)
    case Running(_, id, _, blocks) => Assembled(c, id, blocks) && Taken(c.engine, id) && !Called(c, id)
    case Copying(_, id, _) => Answered(c, id)
    case Storing(_, id, _, _) => Answered(c, id)
    case Loading(_, id, _) => Answered(c, id)
    case Finishing(_, id, _) => Known(c, id) && Taken(c.engine, id)
    case Failing(_, id, _) => Known(c, id) && Taken(c.engine, id)
    case Refusing(_, _) => true
    case Ended => true
  }

  /** The handler has been called for the record, once. */
  ghost predicate Answered(c: Core, id: Id) {
    Known(c, id) && Taken(c.engine, id) && Called(c, id) && id !in c.repeats
  }

  /** Requests that have a record to themselves. */
  predicate Owner(t: Thread) {
    t.Running? || t.Copying? || t.Storing? || t.Loading?
  }

  ghost predicate CallOk(c: Core, call: Call) {
    exists blocks :: Assembled(c, call.id, blocks) && Taken(c.engine, call.id)
                     && call.body == Content(c.shapes[call.id], blocks)
  }

  ghost predicate Records(c: Core) {
    && (forall k :: k in c.engine.uploads ==> RecordOk(c, c.engine.uploads[k]))
    && (forall j, k :: j in c.engine.uploads && k in c.engine.uploads && j != k ==>
                       c.engine.uploads[j].id != c.engine.uploads[k].id)
  }

  ghost predicate Calls(c: Core) {
    && (forall i :: 0 <= i < |c.calls| ==> CallOk(c, c.calls[i]))
    && (forall i, j :: 0 <= i < j < |c.calls| ==> c.calls[i].id != c.calls[j].id)
    && (forall i :: 0 <= i < |c.repeats| ==> Called(c, c.repeats[i]))
    && (forall i, j :: 0 <= i < j < |c.repeats| ==> c.repeats[i] != c.repeats[j])
  }

  ghost predicate Threads(c: Core, threads: map<ThreadId, Thread>) {
    && (forall t :: t in threads ==> ThreadOk(c, threads[t]))
    && (forall t, r :: t in threads && r in threads && t != r && Owner(threads[t]) && Owner(threads[r]) ==>
                       threads[t].id != threads[r].id)
  }

  ghost predicate Inv(s: Server) {
    Records(s.core) && Calls(s.core) && Threads(s.core, s.threads)
  }

  // ---------------------------------------------------------------- what survives a step

  /** How the uploads may change without a new payload or a new record. */
  predicate Successor(u: Upload, u': Upload) {
    && u'.id == u.id && u'.Shape() == u.Shape() && u'.blocks == u.blocks && (u.completed ==> u'.completed)
    && ((u'.assembly == u.assembly && u'.bytes == u.bytes) || (!u'.assembly && u'.completed && u'.bytes == 0))
  }

  ghost predicate Evolves(e: State, e': State) {
    && e.nextId <= e'.nextId
    && forall k :: k in e'.uploads ==> k in e.uploads && Successor(e.uploads[k], e'.uploads[k])
  }

  /** What the threads and the calls of a core rely on. */
  ghost predicate Preserves(c: Core, c': Core) {
    && (forall id :: Known(c, id) ==> Known(c', id) && c'.shapes[id] == c.shapes[id])
    && (forall id :: Known(c, id) && Taken(c.engine, id) ==> c'.history[id] == c.history[id] && Taken(c'.engine, id))
    && (forall id :: Known(c, id) && Full(c.engine, id) ==> Full(c'.engine, id))
    && c'.calls == c.calls && c'.repeats == c.repeats
  }

  lemma PreservesThreads(c: Core, c': Core, threads: map<ThreadId, Thread>)
    requires Preserves(c, c') && Threads(c, threads) && Calls(c)
    ensures Threads(c', threads) && Calls(c')
  {
    CallsGrow(c, c');
    CallsGrow(c', c);
    forall i | 0 <= i < |c'.calls|
      ensures CallOk(c', c'.calls[i])
    {
      assert CallOk(c, c.calls[i]);
      var blocks :| Assembled(c, c.calls[i].id, blocks) && Taken(c.engine, c.calls[i].id)
                    && c.calls[i].body == Content(c.shapes[c.calls[i].id], blocks);
      assert Assembled(c', c.calls[i].id, blocks);
    }
  }

  lemma EvolvesPreserves(c: Core, c': Core)
    requires Records(c) && Evolves(c.engine, c'.engine)
    requires c' == c.(engine := c'.engine, stores := c'.stores, answers := c'.answers)
    ensures Records(c') && Preserves(c, c')
  {
    hide ReceiveAll, SumTo, AllStored;
    forall k | k in c'.engine.uploads
      ensures RecordOk(c', c'.engine.uploads[k])
    {
      assert RecordOk(c, c.engine.uploads[k]);
    }
  }

  // ---------------------------------------------------------------- the engine's own steps

  lemma SettleEvolves(e: State, key: Key, response: Reply)
    requires key in e.uploads && e.uploads[key].completed
    ensures Evolves(e, Settle(e, key, response))
  {
  }

  lemma {:induction false} SweepEvolves(e: State, order: seq<Key>, cutoff: Option<int>)
    ensures Evolves(e, SweepUploads(e, order, cutoff))
    ensures forall k :: k in SweepUploads(e, order, cutoff).uploads ==>
              SweepUploads(e, order, cutoff).uploads[k] == e.uploads[k]
    decreases |order|
  {
    if order != [] {
      SweepEvolves(e, order[..|order| - 1], cutoff);
    }
  }

  lemma ForeignEvolves(e: State, step: Step)
    requires Foreign(step)
    ensures Evolves(e, Apply(e, step))
  {
    hide Evolves, StoreFinalError, UploadTimer, SweepUploads, StoreSnapshot, CancelObservation, RegisterObservation,
      SweepOutgoing, SweepObservations, ReserveSnapshot, FeedReceiver, Successor;
    match step {
      case Timer(key, now, deadline, maxRetransmit) => TimerEvolves(e, key, now, deadline, maxRetransmit);
      case ExpireUploads(order, now) => SweepEvolves(e, order, Some(now));
      case CloseUploads(order) => CloseEvolves(e, order);
      case _ =>
        OthersUntouched(e, step);
        SameUploads(e, Apply(e, step));
    }
  }

  lemma SameUploads(e: State, e': State)
    requires e'.uploads == e.uploads && e.nextId <= e'.nextId
    ensures Evolves(e, e')
  {
  }

  lemma OthersUntouched(e: State, step: Step)
    requires Foreign(step) && !step.Timer? && !step.ExpireUploads? && !step.CloseUploads?
    ensures Apply(e, step).uploads == e.uploads && e.nextId <= Apply(e, step).nextId
  {
    hide ReserveSnapshot, AbortSnapshot, StoreSnapshot, InvalidateTerminal, ExpireOutgoing, CancelObservation,
      RegisterObservation, SweepOutgoing, CloseOutgoingIn, OpenReceiver, FeedReceiver, ResetReceiver, CloseReceiver;
  }

  lemma TimerEvolves(e: State, key: Key, now: int, deadline: int, maxRetransmit: int)
    ensures Evolves(e, UploadTimer(e, key, now, deadline, maxRetransmit))
  {
    hide PutUpload, DropUpload;
  }

  lemma CloseEvolves(e: State, order: seq<Key>)
    ensures Evolves(e, CloseUploadsIn(e, order))
  {
    hide SweepUploads;
    SweepEvolves(e, order, None);
  }

  lemma FinalErrorEvolves(e: State, key: Key, sequence: int, token: seq<byte>, response: Reply)
    ensures Evolves(e, StoreFinalError(e, key, sequence, token, response))
  {
    if key in e.uploads && e.uploads[key].completed {
      SettleEvolves(e, key, response);
    }
  }

  // ---------------------------------------------------------------- a request's steps

  /** Creating a record under a fresh identity. */
  lemma CreatePreserves(c: Core, key: Key, u: Upload, e': State)
    requires Records(c) && key !in c.engine.uploads
    requires u.id == c.engine.nextId && u.blocks == map[] && u.assembly && u.bytes == 0 && !u.completed
    requires e'.uploads == c.engine.uploads[key := u] && e'.nextId == c.engine.nextId + 1
    ensures var c' := c.(engine := e', shapes := c.shapes[u.id := u.Shape()], owners := c.owners[u.id := key], history := c.history[u.id := []]);
            Records(c') && Preserves(c, c') && Known(c', u.id)
  {
    hide AllStored, RecordOk, Preserves;
    var c' := c.(engine := e', shapes := c.shapes[u.id := u.Shape()], owners := c.owners[u.id := key], history := c.history[u.id := []]);
    forall k | k in e'.uploads
      ensures RecordOk(c', e'.uploads[k])
      ensures k != key ==> e'.uploads[k].id != u.id
    {
      if k == key {
        NewRecordOk(c', u);
      } else {
        assert RecordOk(c, c.engine.uploads[k]);
        OldRecordOk(c, c', c.engine.uploads[k]);
      }
    }
    CreateFrames(c, c', key, u);
  }

  lemma NewRecordOk(c: Core, u: Upload)
    requires Known(c, u.id) && c.shapes[u.id] == u.Shape() && c.history[u.id] == []
    requires u.blocks == map[] && u.assembly && u.bytes == 0
    ensures RecordOk(c, u)
  {
    NothingStored(u.Shape().Count());
  }

  lemma OldRecordOk(c: Core, c': Core, u: Upload)
    requires RecordOk(c, u) && c.engine.nextId <= c'.engine.nextId
    requires forall id :: id in c.shapes && id < c.engine.nextId ==> id in c'.shapes && c'.shapes[id] == c.shapes[id]
    requires forall id :: id in c.history && id < c.engine.nextId ==> id in c'.history && c'.history[id] == c.history[id]
    ensures RecordOk(c', u) && u.id < c.engine.nextId
  {
    hide ReceiveAll, SumTo;
  }

  lemma CreateFrames(c: Core, c': Core, key: Key, u: Upload)
    requires u.id == c.engine.nextId && key !in c.engine.uploads && !u.completed
    requires c'.engine.uploads == c.engine.uploads[key := u] && c'.engine.nextId == c.engine.nextId + 1
    requires c'.shapes == c.shapes[u.id := u.Shape()] && c'.history == c.history[u.id := []]
    requires c'.calls == c.calls && c'.repeats == c.repeats
    ensures Preserves(c, c')
  {
    hide AllStored;
  }

  /** Admission either creates a record or changes nothing of weight in an old one. */
  lemma AdmitEffect(e: State, key: Key, p: Params, now: int, lifetime: int, maxBody: int, maxEntries: int, granted: bool)
    ensures var (e', r) := AdmitUpload(e, key, p, now, lifetime, maxBody, maxEntries, granted);
            var e1 := MakeWay(e, key, now);
            && Evolves(e, e1)
            && (if r.Proceed? && key !in e1.uploads then
                  && key in e'.uploads && e'.uploads == e1.uploads[key := e'.uploads[key]] && e'.nextId == e1.nextId + 1
                  && e1.nextId == e.nextId
                  && var u := e'.uploads[key];
                     && u.id == r.id == e.nextId && u.blocks == map[] && u.assembly && u.bytes == 0 && !u.completed
                     && u.szx == p.szx && u.size == p.size
                else Evolves(e, e') && (r.Proceed? ==> key in e.uploads && key in e'.uploads && e'.uploads[key].id == r.id))
  {
    hide AdmitUpload, PutUpload, DropUpload, TrySlot, Evolves, Record.Shape, Successor;
    var (e', r) := AdmitUpload(e, key, p, now, lifetime, maxBody, maxEntries, granted);
    var e1 := MakeWay(e, key, now);
    AdmitCases(e, key, p, now, lifetime, maxBody, maxEntries, granted);
    NothingEvolves(e);
    if e1 != e {
      DropEvolves(e, key);
    }
    if r.Proceed? && key in e1.uploads {
      RenewEvolves(e, key, now + lifetime);
    }
  }

  lemma NothingEvolves(e: State)
    ensures Evolves(e, e)
  {
  }

  lemma DropEvolves(e: State, key: Key)
    requires key in e.uploads
    ensures Evolves(e, DropUpload(e, key))
  {
    hide FreeBytes, FreeSlot;
  }

  lemma RenewEvolves(e: State, key: Key, expires: int)
    requires key in e.uploads
    ensures Evolves(e, PutUpload(e, key, e.uploads[key].(expires := expires), e.ledger))
  {
  }

  lemma ArrivingKeeps(c: Core, key: Key, req: Request, x: Choice)
    requires Records(c)
    ensures var (c', t) := Arriving1(c, key, req, x);
            Records(c') && Preserves(c, c') && ThreadOk(c', t) && !Owner(t)
  {
    hide Records, Preserves, RecordOk, AdmitUpload, Evolves, MakeWay, Taken, Full;
    var e := c.engine;
    var (e', r) := AdmitUpload(e, key, req.p, x.now, x.lifetime, x.maxBody, x.maxEntries, x.granted);
    AdmitEffect(e, key, req.p, x.now, x.lifetime, x.maxBody, x.maxEntries, x.granted);
    if x.slips {
      PreservesItself(c);
      return;
    }
    var e1 := MakeWay(e, key, x.now);
    if r.Proceed? && key !in e1.uploads {
      EvolvesPreserves(c, c.(engine := e1));
      CreatePreserves(c.(engine := e1), key, e'.uploads[key], e');
      PreservesTransitive(c, c.(engine := e1), Arriving1(c, key, req, x).0);
    } else {
      EvolvesPreserves(c, c.(engine := e'));
      if r.Proceed? {
        KnownRecord(c, key);
        KnownRecord(c.(engine := e'), key);
        IdsOlder(c.(engine := e'), key, c, e');
      } else {
        EvolvesPreserves(c, Arriving1(c, key, req, x).0);
      }
    }
  }

  /** An old record's identity is older than the next one. */
  lemma IdsOlder(c': Core, key: Key, c: Core, e': State)
    requires Records(c) && Evolves(c.engine, e') && c' == c.(engine := e') && key in e'.uploads
    ensures e'.uploads[key].id < c.engine.nextId
  {
    assert RecordOk(c, c.engine.uploads[key]);
  }

  lemma KnownRecord(c: Core, key: Key)
    requires Records(c) && key in c.engine.uploads
    ensures Known(c, c.engine.uploads[key].id)
  {
    assert RecordOk(c, c.engine.uploads[key]);
  }

  lemma PreservesTransitive(a: Core, b: Core, c: Core)
    requires Preserves(a, b) && Preserves(b, c)
    ensures Preserves(a, c)
  {
    hide Known, Taken, Full;
  }

  /** A stored or repeated payload is what one more arrival makes of the record. */
  lemma OfferedIsReceived(u: Upload, u': Upload, h: seq<Arrival>, a: Arrival)
    requires u.blocks == ReceiveAll(u.Shape(), map[], h) && u.bytes == SumTo(u.blocks, u.Shape().Count())
    requires if a.num in u.blocks then u'.blocks == u.blocks && u'.bytes == u.bytes
             else u.Shape().Fits(a.num, a.more, a.payload) && u'.blocks == u.blocks[a.num := a.payload]
                  && u'.bytes == u.bytes + |a.payload|
    ensures u'.blocks == ReceiveAll(u.Shape(), map[], h + [a]) && u'.bytes == SumTo(u'.blocks, u.Shape().Count())
  {
    assert (h + [a])[..|h|] == h;
    if a.num !in u.blocks {
      SumToInsert(u.blocks, a.num, a.payload, u.Shape().Count());
    }
  }

  /** One record took one more payload; everything else is as before. */
  lemma FedPreserves(c: Core, key: Key, u': Upload, e': State, a: Arrival)
    requires Records(c) && key in c.engine.uploads
    requires var u := c.engine.uploads[key];
             && u'.id == u.id && u'.Shape() == u.Shape() && !u.completed && !u'.completed && u.assembly && u'.assembly
             && (if a.num in u.blocks then u'.blocks == u.blocks && u'.bytes == u.bytes
                 else u.Shape().Fits(a.num, a.more, a.payload) && u'.blocks == u.blocks[a.num := a.payload]
                      && u'.bytes == u.bytes + |a.payload|)
             && e'.uploads == c.engine.uploads[key := u'] && e'.nextId == c.engine.nextId
    ensures u'.id in c.history
    ensures var c' := c.(engine := e', history := c.history[u'.id := c.history[u'.id] + [a]]);
            Records(c') && Preserves(c, c')
  {
    hide ReceiveAll, SumTo, Layout.Fits, Layout.Count, Preserves, AllStored;
    var u := c.engine.uploads[key];
    assert RecordOk(c, u);
    var c' := c.(engine := e', history := c.history[u'.id := c.history[u'.id] + [a]]);
    OfferedIsReceived(u, u', c.history[u.id], a);
    forall k | k in e'.uploads
      ensures RecordOk(c', e'.uploads[k])
    {
      if k != key {
        assert RecordOk(c, c.engine.uploads[k]);
      }
    }
    FedFrames(c, c', key, u', c.history[u'.id] + [a]);
  }

  lemma FedFrames(c: Core, c': Core, key: Key, u': Upload, h: seq<Arrival>)
    requires key in c.engine.uploads && u'.id == c.engine.uploads[key].id && u'.Shape() == c.engine.uploads[key].Shape()
    requires c.engine.uploads[key].blocks.Keys <= u'.blocks.Keys && !c.engine.uploads[key].completed
    requires c'.engine.uploads == c.engine.uploads[key := u'] && c'.engine.nextId == c.engine.nextId
    requires c'.shapes == c.shapes && c'.calls == c.calls && c'.repeats == c.repeats
    requires u'.id in c.history && c'.history == c.history[u'.id := h]
    ensures Preserves(c, c')
  {
    hide Layout.Count;
    assert !Taken(c.engine, u'.id);
    assert Full(c.engine, u'.id) ==> AllStored(u'.Shape(), u'.blocks) by {
      if Full(c.engine, u'.id) {
        assert AllStored(c.engine.uploads[key].Shape(), c.engine.uploads[key].blocks);
      }
    }
  }

  /** The second section stores a payload of its record, or changes nothing of weight. */
  lemma AddEffect(e: State, key: Key, id: Id, p: Params, payload: seq<byte>, now: int, granted: bool)
    ensures var (e', r) := AddPayload(e, key, id, p, payload, now, granted);
            if r.Waiting? || r.Complete? then
              && key in e.uploads && key in e'.uploads && e'.uploads == e.uploads[key := e'.uploads[key]] && e'.nextId == e.nextId
              && var u, u' := e.uploads[key], e'.uploads[key];
                 && u.id == id == u'.id && u'.Shape() == u.Shape() && !u.completed && !u'.completed && u.assembly && u'.assembly
                 && (if p.num in u.blocks then u'.blocks == u.blocks && u'.bytes == u.bytes
                     else u.Shape().Fits(p.num, p.more, payload) && u'.blocks == u.blocks[p.num := payload]
                          && u'.bytes == u.bytes + |payload|)
                 && (r.Complete? ==> AllStored(u'.Shape(), u'.blocks))
            else Evolves(e, e')
  {
    hide Layout.Fits, AllStored, IsFirstGap, Layout.Count, PutUpload, DropUpload, TryBytes, FreeBytes;
  }

  lemma ReadingKeeps(c: Core, key: Key, id: Id, req: Request, x: Choice)
    requires Records(c) && Known(c, id)
    ensures var (c', t) := Reading1(c, key, id, req, x);
            Records(c') && Preserves(c, c') && ThreadOk(c', t) && !Owner(t)
  {
    hide Records, Preserves, RecordOk, AddPayload, Layout.Fits, AllStored, Evolves, Taken, Full, Known;
    var e := c.engine;
    var (e', r) := AddPayload(e, key, id, req.p, req.payload, x.now, x.granted);
    AddEffect(e, key, id, req.p, req.payload, x.now, x.granted);
    var (c', t) := Reading1(c, key, id, req, x);
    if x.slips {
      PreservesItself(c);
    } else if r.Waiting? || r.Complete? {
      FedPreserves(c, key, e'.uploads[key], e', Arrival(req.p.num, req.p.more, req.payload));
      OnlyOne(c', key);
    } else {
      EvolvesPreserves(c, c');
    }
  }

  /** The one record with an identity decides what is known of it. */
  lemma OnlyOne(c: Core, key: Key)
    requires Records(c) && key in c.engine.uploads
    ensures Known(c, c.engine.uploads[key].id)
    ensures var u := c.engine.uploads[key]; AllStored(u.Shape(), u.blocks) ==> Full(c.engine, u.id)
    ensures c.engine.uploads[key].completed ==> Taken(c.engine, c.engine.uploads[key].id)
  {
    hide AllStored;
    assert RecordOk(c, c.engine.uploads[key]);
  }

  lemma ClaimingKeeps(c: Core, key: Key, id: Id, req: Request)
    requires Records(c) && Calls(c) && Known(c, id) && Full(c.engine, id)
    ensures var (c', t) := Claiming1(c, key, id, req);
            && Records(c') && Preserves(c, c') && ThreadOk(c', t)
            && (Owner(t) ==> t.Running? && !Taken(c.engine, id) && t.id == id)
  {
    hide Records, Preserves, Calls, ClaimUpload, Taken, Evolves;
    var e := c.engine;
    var (e', r) := ClaimUpload(e, key, id, req.sequence, req.token);
    ClaimEffect(e, key, id, req.sequence, req.token);
    EvolvesPreserves(c, c.(engine := e'));
    if r.Won? {
      OnlyOne(c.(engine := e'), key);
      WonIsAssembled(c.(engine := e'), key, r.blocks);
      UncalledIfNotTaken(c, id);
    }
  }

  lemma ClaimEffect(e: State, key: Key, id: Id, sequence: int, token: seq<byte>)
    ensures var (e', r) := ClaimUpload(e, key, id, sequence, token);
            && Evolves(e, e')
            && (r.Won? ==> key in e.uploads && !Taken(e, id) && key in e'.uploads && e'.uploads[key].completed
                           && e'.uploads[key].id == id && e'.uploads[key].blocks == r.blocks
                           && (Full(e, id) ==> AllStored(e'.uploads[key].Shape(), r.blocks)))
  {
    hide PutUpload, AllStored;
  }

  lemma WonIsAssembled(c: Core, key: Key, blocks: Blocks)
    requires Records(c) && key in c.engine.uploads
    requires c.engine.uploads[key].blocks == blocks && AllStored(c.engine.uploads[key].Shape(), blocks)
    ensures Assembled(c, c.engine.uploads[key].id, blocks)
  {
    assert RecordOk(c, c.engine.uploads[key]);
  }

  lemma UncalledIfNotTaken(c: Core, id: Id)
    requires Calls(c)
    ensures Called(c, id) ==> Taken(c.engine, id)
  {
    if Called(c, id) {
      var i :| 0 <= i < |c.calls| && c.calls[i].id == id;
      assert CallOk(c, c.calls[i]);
    }
  }

  lemma FinishingKeeps(c: Core, key: Key, id: Id, req: Request, x: Choice)
    requires Records(c) && Known(c, id) && Taken(c.engine, id)
    ensures var (c', t) := Finishing1(c, key, id, req, x);
            Records(c') && Preserves(c, c') && ThreadOk(c', t) && !Owner(t)
  {
    hide Records, Preserves, Evolves, Settle, Known;
    var e := c.engine;
    if key in e.uploads && e.uploads[key].id == id {
      SettleEvolves(e, key, x.response);
    }
    PreservesItself(c);
    NothingEvolves(e);
    EvolvesPreserves(c, Finishing1(c, key, id, req, x).0);
  }

  lemma FailingKeeps(c: Core, key: Key, req: Request, x: Choice)
    requires Records(c)
    ensures var (c', t) := Failing1(c, key, req, x);
            Records(c') && Preserves(c, c') && t == Ended
  {
    hide Records, Preserves, StoreFinalError;
    FinalErrorEvolves(c.engine, key, req.sequence, req.token, x.response);
    EvolvesPreserves(c, Failing1(c, key, req, x).0);
  }

  /** What only concerns stored answers leaves a record's standing as it is. */
  lemma AsideKeeps(c: Core, e': State, id: Id)
    requires Records(c) && UploadsAside(c.engine, e') && Answered(c, id)
    ensures var c' := c.(engine := e');
            Records(c') && Preserves(c, c') && Answered(c', id) && Known(c', id) && Taken(c'.engine, id)
  {
    hide Records, Preserves;
    SameUploads(c.engine, e');
    EvolvesPreserves(c, c.(engine := e'));
    StillAnswered(c, c.(engine := e'), id);
  }

  lemma StillAnswered(c: Core, c': Core, id: Id)
    requires Answered(c, id) && Preserves(c, c')
    ensures Answered(c', id)
  {
    var i :| 0 <= i < |c.calls| && c.calls[i].id == id;
    assert c'.calls[i].id == id;
  }

  lemma CopyingKeeps(c: Core, key: Key, id: Id, req: Request, x: Choice)
    requires Records(c) && Answered(c, id)
    ensures var (c', t) := Copying1(c, key, id, req, x);
            Records(c') && Preserves(c, c') && ThreadOk(c', t) && t.id == id
  {
    hide Records, Preserves, Answered, Known, Taken, ReserveSnapshot, AbortSnapshot;
    AsideKeeps(c, Copying1(c, key, id, req, x).0.engine, id);
  }

  lemma StoringKeeps(c: Core, key: Key, id: Id, req: Request, snapshot: Id, x: Choice)
    requires Records(c) && Answered(c, id)
    ensures var (c', t) := Storing1(c, key, id, req, snapshot, x);
            Records(c') && Preserves(c, c') && ThreadOk(c', t) && t.id == id
  {
    hide Records, Preserves, Answered, Known, Taken, StoreSnapshot;
    AsideKeeps(c, Storing1(c, key, id, req, snapshot, x).0.engine, id);
  }

  /** Loading: the handler is called once more if and only if the stored answer is gone. */
  lemma LoadingKeeps(c: Core, threads: map<ThreadId, Thread>, t: ThreadId, x: Choice)
    requires Records(c) && Calls(c) && Threads(c, threads) && t in threads && threads[t].Loading?
    ensures var th := threads[t];
            var (c', th') := Loading1(c, th.key, th.id, th.req, x);
            && Records(c') && Calls(c') && Threads(c', threads[t := th'])
  {
    hide Records, Calls, Threads, ExpireOutgoing;
    var th := threads[t];
    assert ThreadOk(c, th) by { ThreadIsOk(c, threads, t); }
    var (c', th') := Loading1(c, th.key, th.id, th.req, x);
    var c1 := c.(engine := c'.engine);
    AsideKeeps(c, c'.engine, th.id);
    PreservesThreads(c, c1, threads);
    if Gone(c.engine, Sought(c.engine, th.req, x), x.now) {
      RepeatKeeps(c1, threads, t, th');
    } else {
      SetThread(c1, threads, t, th');
    }
  }

  lemma ThreadIsOk(c: Core, threads: map<ThreadId, Thread>, t: ThreadId)
    requires Threads(c, threads) && t in threads
    ensures ThreadOk(c, threads[t])
  {
  }

  lemma RepeatKeeps(c: Core, threads: map<ThreadId, Thread>, t: ThreadId, th': Thread)
    requires Records(c) && Calls(c) && Threads(c, threads) && t in threads && threads[t].Loading?
    requires (th'.Failing? || th'.Finishing?) && th'.id == threads[t].id
    ensures var c' := c.(repeats := c.repeats + [threads[t].id]);
            Records(c') && Calls(c') && Threads(c', threads[t := th'])
  {
    hide ReceiveAll, Content, AllStored, SumTo;
    var id := threads[t].id;
    var c' := c.(repeats := c.repeats + [id]);
    assert ThreadOk(c, threads[t]);
    forall k | k in c'.engine.uploads
      ensures RecordOk(c', c'.engine.uploads[k])
    {
      assert RecordOk(c, c.engine.uploads[k]);
    }
    forall i | 0 <= i < |c'.calls|
      ensures CallOk(c', c'.calls[i])
    {
      assert CallOk(c, c.calls[i]);
      var blocks :| Assembled(c, c.calls[i].id, blocks) && Taken(c.engine, c.calls[i].id)
                    && c.calls[i].body == Content(c.shapes[c.calls[i].id], blocks);
      assert Assembled(c', c'.calls[i].id, blocks);
    }
    forall r | r in threads && r != t
      ensures ThreadOk(c', threads[r])
    {
      assert ThreadOk(c, threads[r]);
    }
  }

  /** The call itself: the record is marked, nobody else has called for it, and the body is whole. */
  lemma RunningKeeps(c: Core, threads: map<ThreadId, Thread>, t: ThreadId, x: Choice)
    requires Records(c) && Calls(c) && Threads(c, threads) && t in threads && threads[t].Running?
    ensures var th := threads[t];
            var (c', th') := Running1(c, th.key, th.id, th.req, th.blocks, x);
            && Records(c') && Calls(c') && Threads(c', threads[t := th'])
  {
    hide ReceiveAll, Content, AllStored, SumTo;
    var th := threads[t];
    assert ThreadOk(c, th);
    var (c', th') := Running1(c, th.key, th.id, th.req, th.blocks, x);
    assert c'.calls[|c.calls|].id == th.id;
    forall k | k in c'.engine.uploads
      ensures RecordOk(c', c'.engine.uploads[k])
    {
      assert RecordOk(c, c.engine.uploads[k]);
    }
    CallsGrow(c, c');
    forall i | 0 <= i < |c'.calls|
      ensures CallOk(c', c'.calls[i])
    {
      if i == |c.calls| {
        assert Assembled(c', th.id, th.blocks);
      } else {
        assert CallOk(c, c.calls[i]);
        var blocks :| Assembled(c, c.calls[i].id, blocks) && Taken(c.engine, c.calls[i].id)
                      && c.calls[i].body == Content(c.shapes[c.calls[i].id], blocks);
        assert Assembled(c', c'.calls[i].id, blocks);
      }
    }
    forall r | r in threads && r != t
      ensures ThreadOk(c', threads[r])
    {
      assert ThreadOk(c, threads[r]);
    }
  }

  lemma CallsGrow(c: Core, c': Core)
    requires c.calls <= c'.calls
    ensures forall id :: Called(c, id) ==> Called(c', id)
  {
    forall id | Called(c, id)
      ensures Called(c', id)
    {
      var i :| 0 <= i < |c.calls| && c.calls[i].id == id;
      assert c'.calls[i].id == id;
    }
  }

  // ---------------------------------------------------------------- runs

  lemma SetThread(c: Core, threads: map<ThreadId, Thread>, t: ThreadId, th: Thread)
    requires Threads(c, threads) && ThreadOk(c, th)
    requires Owner(th) ==> forall r :: r in threads && r != t && Owner(threads[r]) ==> threads[r].id != th.id
    ensures Threads(c, threads[t := th])
  {
    hide ThreadOk;
  }

  lemma StepKeepsInv(s: Server, ev: Event)
    requires Inv(s)
    ensures Inv(Next(s, ev))
  {
    hide Records, Calls, Preserves, Move, Foreign, Apply;
    match ev
    case Arrives(t, key, req) =>
      if t !in s.threads {
        SetThread(s.core, s.threads, t, Arriving(key, req));
      }
    case Happens(step) =>
      if Foreign(step) {
        ForeignEvolves(s.core.engine, step);
        EvolvesPreserves(s.core, Next(s, ev).core);
        PreservesThreads(s.core, Next(s, ev).core, s.threads);
      }
    case Moves(t, x) =>
      if t in s.threads {
        MoveKeepsInv(s, t, x);
      }
  }

  lemma MoveKeepsInv(s: Server, t: ThreadId, x: Choice)
    requires Inv(s) && t in s.threads
    ensures Inv(Next(s, Moves(t, x)))
  {
    hide Records, Calls, Preserves, Arriving1, Reading1, Finishing1, Failing1, Claiming1, Running1, Copying1, Storing1,
         Loading1, Full, Known, Assembled, Answered;
    var c, th := s.core, s.threads[t];
    assert ThreadOk(c, th);
    var (c', th') := Move(c, th, x);
    if th.Running? {
      RunningKeeps(c, s.threads, t, x);
    } else if th.Loading? {
      LoadingKeeps(c, s.threads, t, x);
    } else {
      match th {
        case Arriving(key, req) => ArrivingKeeps(c, key, req, x);
        case Reading(key, id, req) => ReadingKeeps(c, key, id, req, x);
        case Claiming(key, id, req) => ClaimingKeeps(c, key, id, req);
        case Copying(key, id, req) => CopyingKeeps(c, key, id, req, x);
        case Storing(key, id, req, snapshot) => StoringKeeps(c, key, id, req, snapshot, x);
        case Finishing(key, id, req) => FinishingKeeps(c, key, id, req, x);
        case Failing(key, id, req) => FailingKeeps(c, key, req, x);
        case Refusing(key, req) => FailingKeeps(c, key, req, x);
        case Ended => PreservesItself(c);
      }
      PreservesThreads(c, c', s.threads);
      if Owner(th') {
        forall r | r in s.threads && r != t && Owner(s.threads[r])
          ensures s.threads[r].id != th'.id
        {
          OwnersAreTaken(c, s.threads, r);
        }
      }
      SetThread(c', s.threads, t, th');
    }
  }

  lemma OwnersAreTaken(c: Core, threads: map<ThreadId, Thread>, r: ThreadId)
    requires Threads(c, threads) && r in threads && Owner(threads[r])
    ensures Taken(c.engine, threads[r].id)
  {
    assert ThreadOk(c, threads[r]);
  }

  lemma PreservesItself(c: Core)
    ensures Preserves(c, c)
  {
  }

  ghost function Run(s: Server, events: seq<Event>): Server
    decreases |events|
  {
    if events == [] then s else Next(Run(s, events[..|events| - 1]), events[|events| - 1])
  }

  ghost predicate Fresh(s: Server) {
    s == Server(Core(s.core.engine, [], [], map[], map[], map[], [], []), map[], map[]) && s.core.engine.uploads == map[]
  }

  lemma {:induction false} RunKeepsInv(s: Server, events: seq<Event>)
    requires Fresh(s)
    ensures Inv(Run(s, events))
    decreases |events|
  {
    hide Next;
    if events != [] {
      RunKeepsInv(s, events[..|events| - 1]);
      StepKeepsInv(Run(s, events[..|events| - 1]), events[|events| - 1]);
    }
  }

  /** At-most-once upload: under every interleaving of requests, timers, expiry and closing, each
      upload record hands a body to the application at most once, and only the complete body
      that the payloads offered to that record make up. A further call, without a body, comes at
      most once and only behind that one. */
  lemma AtMostOnce(s: Server, events: seq<Event>)
    requires Fresh(s)
    ensures var c := Run(s, events).core;
            && (forall i, j :: 0 <= i < j < |c.calls| ==> c.calls[i].id != c.calls[j].id)
            && (forall i :: 0 <= i < |c.calls| ==> CallOk(c, c.calls[i]))
            && (forall i, j :: 0 <= i < j < |c.repeats| ==> c.repeats[i] != c.repeats[j])
            && forall i :: 0 <= i < |c.repeats| ==> Called(c, c.repeats[i])
  {
    RunKeepsInv(s, events);
  }

  /** The event makes a request load a stored answer that is gone. */
  predicate FindsNothing(s: Server, ev: Event) {
    && ev.Moves? && ev.thread in s.threads && s.threads[ev.thread].Loading?
    && Gone(s.core.engine, Sought(s.core.engine, s.threads[ev.thread].req, ev.choice), ev.choice.now)
  }

  lemma RepeatsGrow(s: Server, ev: Event)
    ensures Next(s, ev).core.repeats
         == s.core.repeats + if FindsNothing(s, ev) then [s.threads[ev.thread].id] else []
  {
    hide AdmitUpload, AddPayload, ClaimUpload, ReserveSnapshot, AbortSnapshot, StoreSnapshot, StoreResponse,
         StoreFinalError, ExpireOutgoing, Apply, AllStored;
  }

  ghost predicate FindsNothingAt(s: Server, events: seq<Event>, i: nat)
    requires i < |events|
  {
    FindsNothing(Run(s, events[..i]), events[i])
  }

  lemma FoundBefore(s: Server, events: seq<Event>, i: nat)
    requires i < |events| - 1
    ensures FindsNothingAt(s, events[..|events| - 1], i) <==> FindsNothingAt(s, events, i)
  {
    hide FindsNothing, Run;
    assert events[..|events| - 1][..i] == events[..i];
  }

  lemma RunRepeats(s: Server, events: seq<Event>)
    requires events != []
    ensures Run(s, events).core.repeats == [] <==>
            Run(s, events[..|events| - 1]).core.repeats == [] && !FindsNothingAt(s, events, |events| - 1)
  {
    hide Next, FindsNothing;
    RepeatsGrow(Run(s, events[..|events| - 1]), events[|events| - 1]);
  }

  /** Exactly when the handler is called once per record: if and only if no request finds its
      stored answer gone when it comes to load it. */
  lemma {:induction false} OncePerRecordIff(s: Server, events: seq<Event>)
    requires Fresh(s)
    ensures Run(s, events).core.repeats == [] <==> forall i :: 0 <= i < |events| ==> !FindsNothingAt(s, events, i)
    decreases |events|
  {
    hide Next, FindsNothingAt;
    if events != [] {
      var init, n := events[..|events| - 1], |events| - 1;
      OncePerRecordIff(s, init);
      hide Run;
      RunRepeats(s, events);
      forall i | 0 <= i < n
        ensures FindsNothingAt(s, init, i) <==> FindsNothingAt(s, events, i)
      {
        FoundBefore(s, events, i);
      }
      if Run(s, init).core.repeats != [] {
        var i :| 0 <= i < n && FindsNothingAt(s, init, i);
        assert FindsNothingAt(s, events, i);
      }
    }
  }

  // ---------------------------------------------------------------- when a stored answer is still there

  predicate Safe(e: State, key: Key, now: int) {
    key in e.outgoing && e.outgoing[key].expires > now
  }

  /** The event does not take away what is stored under the key before the given time. It is no
      closing, no cancellation or registration of an observation; it does not invalidate the key or
      let it expire; what it may put in its place lives longer. */
  predicate Spares(ev: Event, key: Key, now: int) {
    match ev
    case Arrives(_, _, _) => true
    case Moves(_, x) => x.now <= now < x.expires
    case Happens(step) =>
      match step
      case CloseOutgoing(_, _) => false
      case Cancel(_) => false
      case Register(_, _, _) => false
      case Invalidate(k, _) => k != key
      case ExpireOne(k, t) => k != key || t <= now
      case ExpireAll(order, t) => key !in order || t <= now
      case Keep(_, k, expires, _, _) => k != key || now < expires
      case _ => true
  }

  lemma {:induction false} SweepSpares(e: State, order: seq<Key>, cutoff: int, key: Key, now: int)
    requires Safe(e, key, now) && (key !in order || cutoff <= now)
    ensures Safe(SweepOutgoing(e, order, Some(cutoff)), key, now)
    decreases |order|
  {
    if order != [] {
      var init := order[..|order| - 1];
      assert forall k :: k in init ==> k in order;
      SweepSpares(e, init, cutoff, key, now);
      assert order[|order| - 1] in order;
    }
  }

  lemma StoreSpares(e: State, id: Id, k: Key, expires: int, notifies: Option<(Key, Id)>, observes: bool, key: Key, now: int)
    requires Safe(e, key, now) && (k != key || now < expires)
    ensures Safe(StoreSnapshot(e, id, k, expires, notifies, observes), key, now)
  {
  }

  lemma HappeningSpares(e: State, step: Step, key: Key, now: int)
    requires Foreign(step) && Safe(e, key, now) && Spares(Happens(step), key, now)
    ensures Safe(Apply(e, step), key, now)
  {
    hide SweepOutgoing, StoreSnapshot, SweepUploads;
    match step
    case ExpireAll(order, t) => SweepSpares(e, order, t, key, now);
    case Keep(id, k, expires, notifies, observes) => StoreSpares(e, id, k, expires, notifies, observes, key, now);
    case ExpireUploads(order, t) => SweepAside(e, order, Some(t));
    case CloseUploads(order) => SweepAside(e, order, None);
    case _ =>
  }

  lemma {:induction false} SweepAside(e: State, order: seq<Key>, cutoff: Option<int>)
    ensures SweepUploads(e, order, cutoff).outgoing == e.outgoing
    decreases |order|
  {
    if order != [] {
      SweepAside(e, order[..|order| - 1], cutoff);
    }
  }

  lemma AdmitAside(e: State, key: Key, p: Params, now: int, lifetime: int, maxBody: int, maxEntries: int, granted: bool)
    ensures AdmitUpload(e, key, p, now, lifetime, maxBody, maxEntries, granted).0.outgoing == e.outgoing
  {
    hide AdmitUpload, TrySlot, PutUpload, DropUpload;
    AdmitCases(e, key, p, now, lifetime, maxBody, maxEntries, granted);
  }

  lemma AddAside(e: State, key: Key, id: Id, p: Params, payload: seq<byte>, now: int, granted: bool)
    ensures AddPayload(e, key, id, p, payload, now, granted).0.outgoing == e.outgoing
  {
    hide AllStored, IsFirstGap, Layout.Fits, Layout.Count, TryBytes, FreeBytes, PutUpload, DropUpload;
  }

  lemma SettleAside(e: State, key: Key, id: Id, sequence: int, token: seq<byte>, response: Reply)
    ensures StoreResponse(e, key, id, response).outgoing == e.outgoing
    ensures StoreFinalError(e, key, sequence, token, response).outgoing == e.outgoing
    ensures ClaimUpload(e, key, id, sequence, token).0.outgoing == e.outgoing
  {
    hide FreeBytes, PutUpload;
  }

  /** Only copying, storing and loading have to do with stored answers. */
  lemma MoveAside(c: Core, th: Thread, x: Choice)
    requires !th.Copying? && !th.Storing? && !th.Loading?
    ensures Move(c, th, x).0.engine.outgoing == c.engine.outgoing
  {
    hide AdmitUpload, AddPayload, ClaimUpload, StoreResponse, StoreFinalError, AllStored, Content, KeepsError;
    var e := c.engine;
    match th
    case Arriving(k, req) => AdmitAside(e, k, req.p, x.now, x.lifetime, x.maxBody, x.maxEntries, x.granted);
    case Reading(k, id, req) => AddAside(e, k, id, req.p, req.payload, x.now, x.granted);
    case Claiming(k, id, req) => SettleAside(e, k, id, req.sequence, req.token, x.response);
    case Finishing(k, id, req) => SettleAside(e, k, id, req.sequence, req.token, x.response);
    case Failing(k, id, req) => SettleAside(e, k, id, req.sequence, req.token, x.response);
    case Refusing(k, req) => SettleAside(e, k, 0, req.sequence, req.token, x.response);
    case _ =>
  }

  lemma CopySpares(e: State, x: Choice, key: Key, now: int)
    requires Safe(e, key, now) && x.now <= now
    ensures Safe(ReserveSnapshot(e, x.snapshot, x.size, x.granted, x.granted), key, now)
    ensures Safe(AbortSnapshot(ReserveSnapshot(e, x.snapshot, x.size, x.granted, x.granted), x.snapshot), key, now)
    ensures forall k :: Safe(ExpireOutgoing(e, k, x.now), key, now)
  {
    hide TryBytes, TrySlot, FreeBytes, FreeSlot;
  }

  lemma MoveSpares(c: Core, th: Thread, x: Choice, key: Key, now: int)
    requires Safe(c.engine, key, now) && x.now <= now < x.expires
    ensures Safe(Move(c, th, x).0.engine, key, now)
  {
    hide ReserveSnapshot, AbortSnapshot, ExpireOutgoing, StoreSnapshot;
    if th.Copying? || th.Storing? || th.Loading? {
      CopySpares(c.engine, x, key, now);
      if th.Storing? {
        StoreSpares(c.engine, th.snapshot, th.req.replyKey, x.expires, None, false, key, now);
      }
    } else {
      hide Move;
      MoveAside(c, th, x);
    }
  }

  lemma EventSpares(s: Server, ev: Event, key: Key, now: int)
    requires Safe(s.core.engine, key, now) && Spares(ev, key, now)
    ensures Safe(Next(s, ev).core.engine, key, now)
  {
    hide Safe, Spares, Move, Apply, Foreign;
    match ev
    case Arrives(_, _, _) =>
    case Happens(step) =>
      if Foreign(step) {
        HappeningSpares(s.core.engine, step, key, now);
      }
    case Moves(t, x) =>
      if t in s.threads {
        SparedClock(ev, key, now);
        MoveSpares(s.core, s.threads[t], x, key, now);
      }
  }

  lemma SparedClock(ev: Event, key: Key, now: int)
    requires ev.Moves? && Spares(ev, key, now)
    ensures ev.choice.now <= now < ev.choice.expires
  {
  }

  /** Request `t` keeps a large answer with event `i` and loads it with event `j`. */
  ghost predicate Awaits(s: Server, events: seq<Event>, t: ThreadId, i: nat, j: nat)
    requires i < j < |events|
  {
    var before, after, later := Run(s, events[..i]).threads, Run(s, events[..i + 1]).threads, Run(s, events[..j]).threads;
    && events[i].Moves? && events[i].thread == t && t in before && before[t].Storing?
    && t in after && after[t].Loading?
    && events[j].Moves? && events[j].thread == t && t in later && later[t] == after[t]
  }

  /** The answer outlives the wait, and nothing takes it away. */
  ghost predicate Undisturbed(s: Server, events: seq<Event>, t: ThreadId, i: nat, j: nat)
    requires i < j < |events| && Awaits(s, events, t, i, j)
  {
    var key, now := Run(s, events[..j]).threads[t].req.replyKey, events[j].choice.now;
    && now < events[i].choice.expires
    && forall m :: i < m < j ==> Spares(events[m], key, now)
  }

  lemma StoredIsSafe(s: Server, t: ThreadId, x: Choice, now: int)
    requires t in s.threads && s.threads[t].Storing? && Next(s, Moves(t, x)).threads[t].Loading? && now < x.expires
    ensures Safe(Next(s, Moves(t, x)).core.engine, s.threads[t].req.replyKey, now)
    ensures Next(s, Moves(t, x)).threads[t].req == s.threads[t].req
  {
  }

  lemma {:induction false} StaysSafe(s: Server, events: seq<Event>, i: nat, j: nat, key: Key, now: int)
    requires i <= j <= |events| && Safe(Run(s, events[..i]).core.engine, key, now)
    requires forall m :: i <= m < j ==> Spares(events[m], key, now)
    ensures Safe(Run(s, events[..j]).core.engine, key, now)
    decreases j
  {
    hide Safe, Spares, Next;
    if i < j {
      StaysSafe(s, events, i, j - 1, key, now);
      RunStep(s, events, j - 1);
      EventSpares(Run(s, events[..j - 1]), events[j - 1], key, now);
    }
  }

  lemma StoredAnswerIsFound(s: Server, events: seq<Event>, t: ThreadId, i: nat, j: nat)
    requires i < j < |events| && Awaits(s, events, t, i, j) && Undisturbed(s, events, t, i, j)
    ensures !FindsNothing(Run(s, events[..j]), events[j])
  {
    hide Next, Run, Spares;
    var now := events[j].choice.now;
    RunStep(s, events, i);
    StoredIsSafe(Run(s, events[..i]), t, events[i].choice, now);
    StaysSafe(s, events, i + 1, j, Run(s, events[..j]).threads[t].req.replyKey, now);
  }

  /** A request that is about to load has stored. */
  lemma {:induction false} LoadingHasStored(s: Server, events: seq<Event>, t: ThreadId, j: nat) returns (i: nat)
    requires Fresh(s) && j <= |events| && t in Run(s, events[..j]).threads && Run(s, events[..j]).threads[t].Loading?
    ensures i < j && events[i].Moves? && events[i].thread == t
    ensures t in Run(s, events[..i]).threads && Run(s, events[..i]).threads[t].Storing?
    ensures t in Run(s, events[..i + 1]).threads && Run(s, events[..i + 1]).threads[t] == Run(s, events[..j]).threads[t]
    decreases j
  {
    hide Next;
    assert events[..0] == [];
    if j == 0 {
      assert false;
    } else {
      RunStep(s, events, j - 1);
      LoadingComesFromStoring(Run(s, events[..j - 1]), events[j - 1], t);
      var before := Run(s, events[..j - 1]).threads;
      if t in before && before[t].Loading? {
        i := LoadingHasStored(s, events, t, j - 1);
      } else {
        i := j - 1;
      }
    }
  }

  lemma LoadingComesFromStoring(s: Server, ev: Event, t: ThreadId)
    requires t in Next(s, ev).threads && Next(s, ev).threads[t].Loading?
    ensures t in s.threads
    ensures s.threads[t] == Next(s, ev).threads[t] || (ev.Moves? && ev.thread == t && s.threads[t].Storing?)
  {
    hide AdmitUpload, AddPayload, ClaimUpload, ReserveSnapshot, AbortSnapshot, StoreSnapshot, StoreResponse,
         StoreFinalError, ExpireOutgoing, Apply, AllStored, KeepsError, Content;
  }

  /** The handler is called once per record whenever no answer, while its request waits to load it,
      is closed, cancelled, invalidated, replaced by a shorter-lived one or expired. */
  lemma OncePerRecordWhen(s: Server, events: seq<Event>)
    requires Fresh(s)
    requires forall t, i: nat, j: nat :: i < j < |events| && Awaits(s, events, t, i, j) ==> Undisturbed(s, events, t, i, j)
    ensures Run(s, events).core.repeats == []
  {
    hide Next, Run, Undisturbed, Gone, Sought;
    forall j | 0 <= j < |events|
      ensures !FindsNothingAt(s, events, j)
    {
      if FindsNothing(Run(s, events[..j]), events[j]) {
        var t := events[j].thread;
        var i := LoadingHasStored(s, events, t, j);
        assert Awaits(s, events, t, i, j);
        StoredAnswerIsFound(s, events, t, i, j);
      }
    }
    OncePerRecordIff(s, events);
  }

  const SMALL := Request(Params(0, false, 0, 0, 0), [], 0, [], 9)
  const QUICK := Choice(0, 100, 16, 0, true, Reply([], []), false, false, true, 0, 16, 100, 9)

  const OFFERED: Upload := Record.Upload(0, 0, 0, 0, map[], true, 100, 0, 0, false, 0, None, None)
  const FILLED: Upload := OFFERED.(blocks := map[0 := []])
  const CLAIMED: Upload := FILLED.(completed := true, claimant := Some((0, [])))
  const ADMITTED := Empty(0, 0).(uploads := map[0 := OFFERED], nextId := 1, ledger := Ledger(0, 1, 0, 1))
  const COMPLETE := ADMITTED.(uploads := map[0 := FILLED])
  const TAKEN := ADMITTED.(uploads := map[0 := CLAIMED])
  const COPIED := TAKEN.(snapshots := map[0 := 16], ledger := Ledger(16, 2, 16, 2))
  const KEPT := COPIED.(outgoing := map[9 := Outgoing(1, 16, 100, None)], outgoingBytes := 16, snapshots := map[], nextId := 2)

  lemma ExampleAdmits()
    ensures AdmitUpload(Empty(0, 0), 0, SMALL.p, 0, 100, 16, 0, true) == (ADMITTED, Proceed(0))
  {
    assert Admissible(0, 0, 16).None?;
  }

  lemma ExampleFits()
    ensures OFFERED.Shape() == Layout(16, 0) && Layout(16, 0).Fits(0, false, [])
    ensures AllStored(Layout(16, 0), map[0 := []])
    ensures TryBytes(ADMITTED.ledger, 0, true) == Some(ADMITTED.ledger)
  {
  }

  lemma ExampleFills()
    ensures AddPayload(ADMITTED, 0, 0, SMALL.p, [], 0, true) == (COMPLETE, Complete)
  {
    hide PutUpload, Layout.Fits, AllStored, TryBytes, IsFirstGap, Record.Shape;
    ExampleFits();
    ExamplePuts(ADMITTED, OFFERED);
    ExamplePuts(ADMITTED, FILLED);
    assert ADMITTED.(uploads := map[0 := OFFERED]) == ADMITTED;
    assert OFFERED.blocks[0 := []] == map[0 := []];
  }

  lemma ExamplePuts(e: State, u: Upload)
    requires e.uploads.Keys == {0} && e.uploads[0].bytes == u.bytes
    ensures PutUpload(e, 0, u, e.ledger) == e.(uploads := map[0 := u])
  {
    assert e.uploads[0 := u] == map[0 := u];
  }

  lemma ExampleClaims()
    ensures ClaimUpload(COMPLETE, 0, 0, 0, []) == (TAKEN, Won(map[0 := []]))
  {
    ExamplePuts(COMPLETE, CLAIMED);
  }

  lemma ExampleKeeps()
    ensures ReserveSnapshot(TAKEN, 0, 16, true, true) == COPIED
    ensures StoreSnapshot(COPIED, 0, 9, 100, None, false) == KEPT
  {
    assert COPIED.snapshots - {0} == map[];
  }

  /** An upload of one empty block whose answer is large, up to the call of the application. */
  lemma ReachesTheCall(s: Server)
    requires s == Server(Core(Empty(0, 0), [], [], map[], map[], map[], [], []), map[0 := Arriving(0, SMALL)], s.requests)
    ensures var s1 := Next(s, Moves(0, QUICK));
            var s2 := Next(s1, Moves(0, QUICK));
            var s3 := Next(s2, Moves(0, QUICK));
            s3 == Server(Core(TAKEN, [], [], map[0 := Layout(16, 0)], map[0 := 0], map[0 := [Arrival(0, false, [])]], [], []),
                         map[0 := Running(0, 0, SMALL, map[0 := []])], s.requests)
  {
    hide AdmitUpload, AddPayload, ClaimUpload;
    ExampleAdmits();
    ExampleFills();
    ExampleClaims();
    var s1 := Next(s, Moves(0, QUICK));
    assert s1.threads == map[0 := Reading(0, 0, SMALL)];
    assert s1.core.history == map[0 := []] && s1.core.shapes == map[0 := Layout(16, 0)] && s1.core.owners == map[0 := 0];
    var s2 := Next(s1, Moves(0, QUICK));
    assert [] + [Arrival(0, false, [])] == [Arrival(0, false, [])];
    assert s2.core.history == map[0 := [Arrival(0, false, [])]];
    assert s2.threads == map[0 := Claiming(0, 0, SMALL)];
  }

  /** From there to loading the stored answer. */
  lemma ReachesTheLoad(s: Server)
    requires s.core.engine == TAKEN && s.core.shapes == map[0 := Layout(16, 0)] && s.core.calls == []
    requires s.core.repeats == [] && s.threads == map[0 := Running(0, 0, SMALL, map[0 := []])]
    ensures var s1 := Next(s, Moves(0, QUICK));
            var s2 := Next(s1, Moves(0, QUICK));
            var s3 := Next(s2, Moves(0, QUICK));
            && s3.threads == map[0 := Loading(0, 0, SMALL)] && |s3.core.calls| == 1 && s3.core.calls[0].id == 0
            && s3.core.repeats == [] && s3.core.engine == KEPT
  {
    hide ReserveSnapshot, StoreSnapshot, Content;
    ExampleKeeps();
    assert AllStored(Layout(16, 0), map[0 := []]);
    var s1 := Next(s, Moves(0, QUICK));
    assert s1.threads == map[0 := Copying(0, 0, SMALL)];
    var s2 := Next(s1, Moves(0, QUICK));
    assert s2.threads == map[0 := Storing(0, 0, SMALL, 0)];
  }

  /** The handler can be called twice for one record: closing the engine between storing and
      loading a large answer makes the request ask the application again. */
  lemma HandlerCanRunTwice() returns (s: Server, events: seq<Event>)
    ensures Fresh(s)
    ensures var c := Run(s, events).core; |c.calls| == 1 && c.repeats == [c.calls[0].id]
  {
    hide Run, Next;
    s := Server(Core(Empty(0, 0), [], [], map[], map[], map[], [], []), map[], map[]);
    Starts(s);
    var step := Moves(0, QUICK);
    events := [Arrives(0, 0, SMALL), step, step, step, step, step, step, Happens(CloseOutgoing([], [9])), step];
    assert events[..0] == [];
    RunStep(s, events, 0);
    assert Run(s, events[..1]).threads == map[0 := Arriving(0, SMALL)];
    RunStep(s, events, 1);
    RunStep(s, events, 2);
    RunStep(s, events, 3);
    RunStep(s, events, 4);
    RunStep(s, events, 5);
    RunStep(s, events, 6);
    RunStep(s, events, 7);
    RunStep(s, events, 8);
    assert events[..9] == events;
    ReachesTheCall(Run(s, events[..1]));
    ReachesTheLoad(Run(s, events[..4]));
    ClosesAndLoads(Run(s, events[..7]));
  }

  lemma Starts(s: Server)
    requires s == Server(Core(Empty(0, 0), [], [], map[], map[], map[], [], []), map[], map[])
    ensures Run(s, []) == s
    ensures Next(s, Arrives(0, 0, SMALL)) == s.(threads := map[0 := Arriving(0, SMALL)], requests := map[0 := SMALL])
  {
  }

  lemma ClosesAndLoads(s: Server)
    requires s.threads == map[0 := Loading(0, 0, SMALL)] && s.core.repeats == [] && s.core.engine == KEPT
    ensures var s1 := Next(s, Happens(CloseOutgoing([], [9])));
            var s2 := Next(s1, Moves(0, QUICK));
            s2.core.calls == s.core.calls && s2.core.repeats == [0]
  {
    var e := s.core.engine;
    assert SweepObservations(e, []) == e;
    assert [9][..0] == [];
    assert SweepOutgoing(e, [], None) == e;
    assert SweepOutgoing(e, [9], None).outgoing.Keys == {};
  }

  lemma RunStep(s: Server, events: seq<Event>, i: nat)
    requires i < |events|
    ensures Run(s, events[..i + 1]) == Next(Run(s, events[..i]), events[i])
  {
    assert events[..i + 1][..i] == events[..i];
  }

  /** If a record was only ever offered the blocks of one body, in any order and with any
      repetition, that body is what the application gets. */
  lemma UploadedBodyIsTheClients(c: Core, call: Call, body: seq<byte>)
    requires CallOk(c, call) && Known(c, call.id)
    requires |body| == c.shapes[call.id].size && IsDelivery(c.shapes[call.id], body, c.history[call.id])
    ensures call.body == body
  {
    EveryDeliveryIsExact(c.shapes[call.id], body, c.history[call.id]);
  }
}
