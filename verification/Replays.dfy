/** What later requests for a completed upload get: the one answer kept for the record, each under
    its own token. */
module Replays {
  import opened Base
  import opened Transfer
  import opened Delivery
  import opened Engine
  import opened Uploads

  // ---------------------------------------------------------------- invariant

  /** An answer is kept for the record if and only if the record says so. */
  ghost predicate RecordKept(c: Core, u: Upload) {
    && (u.response.Some? ==> u.completed && Kept(u.id, u.response.value) in c.stores)
    && (u.response.None? ==> NothingKept(c, u.id))
  }

  ghost predicate NothingKept(c: Core, id: Id) {
    forall i :: 0 <= i < |c.stores| ==> c.stores[i].id != id
  }

  /** No record has been given an answer twice. */
  ghost predicate KeptOnce(stores: seq<Kept>) {
    forall i, j :: 0 <= i < j < |stores| ==> stores[i].id != stores[j].id
  }

  ghost predicate Stores(c: Core) {
    && KeptOnce(c.stores)
    && (forall i :: 0 <= i < |c.stores| ==> c.stores[i].id < c.engine.nextId)
    && (forall k :: k in c.engine.uploads ==> RecordKept(c, c.engine.uploads[k]))
  }

  /** The request carries the answer to its record, and has not kept it yet. */
  predicate Holder(th: Thread) {
    th.Running? || th.Copying? || th.Storing? || th.Loading? || th.Finishing?
  }

  ghost predicate Claimed(e: State, t: ThreadId, id: Id) {
    forall k :: k in e.uploads && e.uploads[k].id == id ==>
      e.uploads[k].response.None? && e.uploads[k].claimant.Some? && e.uploads[k].claimant.value.0 == t
  }

  ghost predicate Holders(e: State, threads: map<ThreadId, Thread>) {
    forall t :: t in threads && Holder(threads[t]) ==> Claimed(e, t, threads[t].id)
  }

  /** The answer is what was kept for the record, under the token of the request that got it. */
  ghost predicate AnswerOk(stores: seq<Kept>, requests: map<ThreadId, Request>, a: Answer) {
    && a.sequence in requests && a.reply.token == requests[a.sequence].token
    && exists i :: 0 <= i < |stores| && stores[i].id == a.id && stores[i].reply.content == a.reply.content
  }

  ghost predicate Answers(c: Core, requests: map<ThreadId, Request>) {
    forall i :: 0 <= i < |c.answers| ==> AnswerOk(c.stores, requests, c.answers[i])
  }

  /** Every request is worked on as it came, and under its own number. */
  ghost predicate Numbered(threads: map<ThreadId, Thread>, requests: map<ThreadId, Request>) {
    && (forall t :: t in threads <==> t in requests)
    && (forall t :: t in threads && !threads[t].Ended? ==> threads[t].req == requests[t] && requests[t].sequence == t)
  }

  ghost predicate Replaying(s: Server) {
    && Stores(s.core) && Holders(s.core.engine, s.threads)
    && Answers(s.core, s.requests) && Numbered(s.threads, s.requests)
  }

  // ---------------------------------------------------------------- what leaves the answers alone

  predicate Standing(u: Upload, u': Upload) {
    u'.id == u.id && u'.response == u.response && u'.claimant == u.claimant && u'.completed == u.completed
  }

  predicate Unclaimed(u: Upload) {
    u.response.None? && u.claimant.None? && !u.completed
  }

  /** Records stand as they did, are gone, or are new. */
  ghost predicate Mild(e: State, e': State) {
    && e.nextId <= e'.nextId
    && forall k :: k in e'.uploads ==>
         || (k in e.uploads && Standing(e.uploads[k], e'.uploads[k]))
         || (e.nextId <= e'.uploads[k].id && Unclaimed(e'.uploads[k]))
  }

  lemma SweepMild(e: State, order: seq<Key>, cutoff: Option<int>)
    ensures Mild(e, SweepUploads(e, order, cutoff))
  {
    hide SweepUploads, Successor;
    SweepEvolves(e, order, cutoff);
  }

  lemma AsideMild(e: State, e': State)
    requires e'.uploads == e.uploads && e.nextId <= e'.nextId
    ensures Mild(e, e')
  {
  }

  lemma ForeignMild(e: State, step: Step)
    requires Foreign(step)
    ensures Mild(e, Apply(e, step))
  {
    hide Mild, UploadTimer, SweepUploads;
    match step {
      case Timer(key, now, deadline, maxRetransmit) => TimerMild(e, key, now, deadline, maxRetransmit);
      case ExpireUploads(order, now) => SweepMild(e, order, Some(now));
      case CloseUploads(order) => CloseMild(e, order);
      case _ =>
        OthersUntouched(e, step);
        AsideMild(e, Apply(e, step));
    }
  }

  lemma CloseMild(e: State, order: seq<Key>)
    ensures Mild(e, CloseUploadsIn(e, order))
  {
    hide SweepUploads, Standing;
    SweepMild(e, order, None);
  }

  lemma TimerMild(e: State, key: Key, now: int, deadline: int, maxRetransmit: int)
    ensures Mild(e, UploadTimer(e, key, now, deadline, maxRetransmit))
  {
    hide PutUpload, DropUpload;
  }

  lemma DropMild(e: State, key: Key)
    requires key in e.uploads
    ensures Mild(e, DropUpload(e, key))
  {
    hide FreeBytes, FreeSlot;
  }

  lemma PutMild(e: State, key: Key, u: Upload, l: Ledger)
    requires key in e.uploads && Standing(e.uploads[key], u)
    ensures Mild(e, PutUpload(e, key, u, l))
  {
    hide PutUpload;
  }

  lemma CreateMild(e: State, key: Key, u: Upload, l: Ledger)
    requires u.id == e.nextId && Unclaimed(u)
    ensures Mild(e, PutUpload(e, key, u, l).(nextId := e.nextId + 1))
  {
    hide PutUpload;
  }

  lemma MildTransitive(a: State, b: State, c: State)
    requires Mild(a, b) && Mild(b, c)
    ensures Mild(a, c)
  {
  }

  lemma AdmitMild(e: State, key: Key, p: Params, now: int, lifetime: int, maxBody: int, maxEntries: int, granted: bool)
    ensures var (e', r) := AdmitUpload(e, key, p, now, lifetime, maxBody, maxEntries, granted);
            && Mild(e, e')
            && (r.Replay? ==> key in e'.uploads && e'.uploads[key].response == r.response)
  {
    hide AdmitUpload, PutUpload, DropUpload, TrySlot, Mild;
    var (e', r) := AdmitUpload(e, key, p, now, lifetime, maxBody, maxEntries, granted);
    var e1 := MakeWay(e, key, now);
    AdmitCases(e, key, p, now, lifetime, maxBody, maxEntries, granted);
    AsideMild(e, e);
    if e1 != e {
      DropMild(e, key);
    }
    if r.Proceed? {
      if key in e1.uploads {
        PutMild(e1, key, e1.uploads[key].(expires := now + lifetime), e1.ledger);
      } else {
        CreateMild(e1, key, Opened(r.id, p, now + lifetime), TrySlot(e1.ledger, granted).value);
      }
      MildTransitive(e, e1, e');
    }
  }

  lemma AddMild(e: State, key: Key, id: Id, p: Params, payload: seq<byte>, now: int, granted: bool)
    ensures var (e', r) := AddPayload(e, key, id, p, payload, now, granted);
            && Mild(e, e')
            && (r.Replayed? ==> key in e'.uploads && e'.uploads[key].id == id && e'.uploads[key].response == r.response)
  {
    hide PutUpload, DropUpload, Layout.Fits, AllStored, IsFirstGap, TryBytes, FreeBytes, Layout.Count;
  }

  // ---------------------------------------------------------------- every step keeps it

  /** Requests only hold records there have been. */
  ghost predicate HoldersKnown(e: State, threads: map<ThreadId, Thread>) {
    forall t :: t in threads && Holder(threads[t]) ==> threads[t].id < e.nextId
  }

  lemma MildKeeps(c: Core, c': Core, threads: map<ThreadId, Thread>)
    requires Stores(c) && Holders(c.engine, threads) && HoldersKnown(c.engine, threads)
    requires Mild(c.engine, c'.engine) && c'.stores == c.stores
    ensures Stores(c') && Holders(c'.engine, threads)
  {
    forall k | k in c'.engine.uploads
      ensures RecordKept(c', c'.engine.uploads[k])
    {
      if k in c.engine.uploads {
        assert RecordKept(c, c.engine.uploads[k]);
      }
    }
    forall t | t in threads && Holder(threads[t])
      ensures Claimed(c'.engine, t, threads[t].id)
    {
      assert Claimed(c.engine, t, threads[t].id);
    }
  }

  /** The claiming request keeps its answer, or its error. */
  lemma SettleKeeps(c: Core, c': Core, threads: map<ThreadId, Thread>, t: ThreadId, key: Key, r: Reply)
    requires Records(c) && Stores(c) && Holders(c.engine, threads)
    requires key in c.engine.uploads && c.engine.uploads[key].completed && c.engine.uploads[key].response.None?
    requires c.engine.uploads[key].claimant.Some? && c.engine.uploads[key].claimant.value.0 == t
    requires c'.engine == Settle(c.engine, key, r) && c'.stores == c.stores + [Kept(c.engine.uploads[key].id, r)]
    ensures Stores(c') && Holders(c'.engine, threads[t := Ended])
  {
    hide FreeBytes, RecordOk;
    var id := c.engine.uploads[key].id;
    assert RecordKept(c, c.engine.uploads[key]) && NothingKept(c, id);
    assert c'.stores[|c.stores|] == Kept(id, r);
    KnownRecord(c, key);
    forall k | k in c'.engine.uploads
      ensures RecordKept(c', c'.engine.uploads[k])
    {
      assert RecordKept(c, c.engine.uploads[k]);
    }
    var after := threads[t := Ended];
    forall q | q in after && Holder(after[q])
      ensures Claimed(c'.engine, q, after[q].id)
    {
      assert Claimed(c.engine, q, threads[q].id);
    }
  }

  /** The request that claims a record is the first to do so. */
  lemma ClaimKeeps(c: Core, threads: map<ThreadId, Thread>, t: ThreadId, key: Key, id: Id, req: Request)
    requires Records(c) && Threads(c, threads) && Stores(c) && Holders(c.engine, threads)
    requires t in threads && !Holder(threads[t]) && req.sequence == t
    ensures var (c', th') := Claiming1(c, key, id, req);
            Stores(c') && Holders(c'.engine, threads[t := th'])
  {
    hide RecordOk, PutUpload, ThreadOk;
    var (c', th') := Claiming1(c, key, id, req);
    forall k | k in c'.engine.uploads
      ensures RecordKept(c', c'.engine.uploads[k])
    {
      assert RecordKept(c, c.engine.uploads[k]);
    }
    var after := threads[t := th'];
    forall q | q in after && Holder(after[q])
      ensures Claimed(c'.engine, q, after[q].id)
    {
      if q != t {
        HolderHasTaken(c, threads, q);
        assert Claimed(c.engine, q, threads[q].id);
      } else {
        assert RecordKept(c, c.engine.uploads[key]);
      }
    }
  }

  lemma HolderHasTaken(c: Core, threads: map<ThreadId, Thread>, t: ThreadId)
    requires Threads(c, threads) && t in threads && Holder(threads[t])
    ensures Taken(c.engine, threads[t].id) && threads[t].id < c.engine.nextId
  {
    hide Called, ReceiveAll, AllStored;
    assert ThreadOk(c, threads[t]);
  }

  lemma AllHoldersKnown(c: Core, threads: map<ThreadId, Thread>)
    requires Threads(c, threads)
    ensures HoldersKnown(c.engine, threads)
  {
    hide Threads, Taken;
    forall t | t in threads && Holder(threads[t])
      ensures threads[t].id < c.engine.nextId
    {
      HolderHasTaken(c, threads, t);
    }
  }

  /** An answer from the record under its key. */
  lemma AnswerKeeps(c: Core, requests: map<ThreadId, Request>, t: ThreadId, key: Key, response: Option<Reply>)
    requires Stores(c) && Answers(c, requests) && t in requests && requests[t].sequence == t
    requires key in c.engine.uploads && c.engine.uploads[key].response == response
    ensures Answers(Answering(c, c.engine.uploads[key].id, response, requests[t]), requests)
  {
    hide KeptOnce;
    assert RecordKept(c, c.engine.uploads[key]);
    if response.Some? {
      var i :| 0 <= i < |c.stores| && c.stores[i] == Kept(c.engine.uploads[key].id, response.value);
    }
  }

  /** Answers given stay good when more is kept and more requests come. */
  lemma AnswersStay(c: Core, c': Core, requests: map<ThreadId, Request>, requests': map<ThreadId, Request>)
    requires Answers(c, requests) && c.stores <= c'.stores && c'.answers == c.answers
    requires forall t :: t in requests ==> t in requests' && requests'[t] == requests[t]
    ensures Answers(c', requests')
  {
    forall i | 0 <= i < |c'.answers|
      ensures AnswerOk(c'.stores, requests', c'.answers[i])
    {
      var a := c.answers[i];
      assert AnswerOk(c.stores, requests, a);
      var k :| 0 <= k < |c.stores| && c.stores[k].id == a.id && c.stores[k].reply.content == a.reply.content;
      assert c'.stores[k] == c.stores[k];
    }
  }

  /** A request goes on, and no record's standing changes. */
  lemma MildMove(s: Server, t: ThreadId, c': Core, th': Thread)
    requires Threads(s.core, s.threads) && Replaying(s) && t in s.threads && !s.threads[t].Ended?
    requires Mild(s.core.engine, c'.engine) && c'.stores == s.core.stores && Answers(c', s.requests)
    requires !th'.Ended? ==> th'.req == s.threads[t].req
    requires Holder(th') ==> Holder(s.threads[t]) && th'.id == s.threads[t].id
    ensures Replaying(s.(core := c', threads := s.threads[t := th']))
  {
    hide Stores, Threads, Mild, Answers, Claimed;
    AllHoldersKnown(s.core, s.threads);
    MildKeeps(s.core, c', s.threads);
    var after := s.threads[t := th'];
    forall q | q in after && Holder(after[q])
      ensures Claimed(c'.engine, q, after[q].id)
    {
      assert Claimed(c'.engine, q, s.threads[q].id);
    }
  }

  lemma ArrivingReplays(s: Server, t: ThreadId, x: Choice)
    requires Threads(s.core, s.threads) && Replaying(s) && t in s.threads && s.threads[t].Arriving?
    ensures Replaying(Next(s, Moves(t, x)))
  {
    hide Stores, Threads, Holders, AdmitUpload, Answers, Mild;
    var c, key, req := s.core, s.threads[t].key, s.threads[t].req;
    var (c', th') := Arriving1(c, key, req, x);
    var (e, r) := AdmitUpload(c.engine, key, req.p, x.now, x.lifetime, x.maxBody, x.maxEntries, x.granted);
    AdmitMild(c.engine, key, req.p, x.now, x.lifetime, x.maxBody, x.maxEntries, x.granted);
    AsideMild(c.engine, c.engine);
    AllHoldersKnown(c, s.threads);
    var c1 := c.(engine := e);
    MildKeeps(c, c1, s.threads);
    AnswersStay(c, c1, s.requests, s.requests);
    if !x.slips && r.Replay? {
      AnswerKeeps(c1, s.requests, t, key, r.response);
    } else {
      AnswersStay(c, c', s.requests, s.requests);
    }
    MildMove(s, t, c', th');
  }

  lemma ReadingReplays(s: Server, t: ThreadId, x: Choice)
    requires Threads(s.core, s.threads) && Replaying(s) && t in s.threads && s.threads[t].Reading?
    ensures Replaying(Next(s, Moves(t, x)))
  {
    hide Stores, Threads, Holders, AddPayload, Answers, Mild;
    var c, key, id, req := s.core, s.threads[t].key, s.threads[t].id, s.threads[t].req;
    var (c', th') := Reading1(c, key, id, req, x);
    var (e, r) := AddPayload(c.engine, key, id, req.p, req.payload, x.now, x.granted);
    AddMild(c.engine, key, id, req.p, req.payload, x.now, x.granted);
    AsideMild(c.engine, c.engine);
    AllHoldersKnown(c, s.threads);
    var c1 := c.(engine := e);
    MildKeeps(c, c1, s.threads);
    AnswersStay(c, c1, s.requests, s.requests);
    if !x.slips && r.Replayed? {
      AnswerKeeps(c1, s.requests, t, key, r.response);
    } else {
      AnswersStay(c, c', s.requests, s.requests);
    }
    MildMove(s, t, c', th');
  }

  lemma ClaimingReplays(s: Server, t: ThreadId, x: Choice)
    requires Records(s.core) && Threads(s.core, s.threads) && Replaying(s) && t in s.threads && s.threads[t].Claiming?
    ensures Replaying(Next(s, Moves(t, x)))
  {
    hide Stores, Threads, Holders, ClaimUpload, Answers, Records;
    var key, id, req := s.threads[t].key, s.threads[t].id, s.threads[t].req;
    ClaimKeeps(s.core, s.threads, t, key, id, req);
    AnswersStay(s.core, Claiming1(s.core, key, id, req).0, s.requests, s.requests);
  }

  /** Calling, copying, storing and loading do not touch the records. */
  lemma WorkingReplays(s: Server, t: ThreadId, x: Choice)
    requires Threads(s.core, s.threads) && Replaying(s) && t in s.threads
    requires s.threads[t].Running? || s.threads[t].Copying? || s.threads[t].Storing? || s.threads[t].Loading?
    ensures Replaying(Next(s, Moves(t, x)))
  {
    hide Stores, Threads, Holders, Answers, Mild, ReserveSnapshot, AbortSnapshot, StoreSnapshot, ExpireOutgoing, AllStored;
    var (c', th') := Move(s.core, s.threads[t], x);
    AsideMild(s.core.engine, c'.engine);
    AnswersStay(s.core, c', s.requests, s.requests);
    MildMove(s, t, c', th');
  }

  /** The answer is kept by the request that claimed the record, which nothing was kept for. */
  lemma FinishingReplays(s: Server, t: ThreadId, x: Choice)
    requires Records(s.core) && Threads(s.core, s.threads) && Replaying(s) && t in s.threads && s.threads[t].Finishing?
    ensures Replaying(Next(s, Moves(t, x)))
  {
    hide Stores, Threads, Answers, Mild, Records, Settle;
    var c, key, id, req := s.core, s.threads[t].key, s.threads[t].id, s.threads[t].req;
    var (c', th') := Finishing1(c, key, id, req, x);
    AnswersStay(c, c', s.requests, s.requests);
    if !x.fails && key in c.engine.uploads && c.engine.uploads[key].id == id {
      HolderHasTaken(c, s.threads, t);
      assert Claimed(c.engine, t, id);
      SettleKeeps(c, c', s.threads, t, key, x.response);
    } else {
      AsideMild(c.engine, c'.engine);
      MildMove(s, t, c', th');
    }
  }

  lemma FailingReplays(s: Server, t: ThreadId, x: Choice)
    requires Records(s.core) && Threads(s.core, s.threads) && Replaying(s)
    requires t in s.threads && (s.threads[t].Failing? || s.threads[t].Refusing?)
    ensures Replaying(Next(s, Moves(t, x)))
  {
    hide Stores, Threads, Answers, Mild, Records, Settle;
    var c, key, req := s.core, s.threads[t].key, s.threads[t].req;
    var (c', th') := Failing1(c, key, req, x);
    AnswersStay(c, c', s.requests, s.requests);
    if KeepsError(c.engine, key, req.sequence, req.token) {
      SettleKeeps(c, c', s.threads, t, key, x.response);
    } else {
      AsideMild(c.engine, c'.engine);
      MildMove(s, t, c', th');
    }
  }

  lemma StepReplays(s: Server, ev: Event)
    requires Inv(s) && Replaying(s)
    ensures Replaying(Next(s, ev))
  {
    hide Stores, Threads, Answers, Records, Calls, Move, Apply, Mild, Foreign;
    match ev
    case Arrives(t, key, req) =>
      if t !in s.threads {
        AnswersStay(s.core, s.core, s.requests, Next(s, ev).requests);
      }
    case Happens(step) =>
      if Foreign(step) {
        ForeignMild(s.core.engine, step);
        AllHoldersKnown(s.core, s.threads);
        MildKeeps(s.core, Next(s, ev).core, s.threads);
        AnswersStay(s.core, Next(s, ev).core, s.requests, s.requests);
      }
    case Moves(t, x) =>
      if t in s.threads {
        MoveReplays(s, t, x);
      }
  }

  lemma MoveReplays(s: Server, t: ThreadId, x: Choice)
    requires Inv(s) && Replaying(s) && t in s.threads
    ensures Replaying(Next(s, Moves(t, x)))
  {
    hide Replaying, Threads, Records, Calls, Next;
    match s.threads[t]
    case Arriving(_, _) => ArrivingReplays(s, t, x);
    case Reading(_, _, _) => ReadingReplays(s, t, x);
    case Claiming(_, _, _) => ClaimingReplays(s, t, x);
    case Finishing(_, _, _) => FinishingReplays(s, t, x);
    case Failing(_, _, _) => FailingReplays(s, t, x);
    case Refusing(_, _) => FailingReplays(s, t, x);
    case Ended => EndedStays(s, t, x);
    case _ => WorkingReplays(s, t, x);
  }

  lemma EndedStays(s: Server, t: ThreadId, x: Choice)
    requires t in s.threads && s.threads[t].Ended?
    ensures Next(s, Moves(t, x)) == s
  {
    assert s.threads[t := Ended] == s.threads;
  }

  lemma {:induction false} RunReplays(s: Server, events: seq<Event>)
    requires Fresh(s)
    ensures Inv(Run(s, events)) && Replaying(Run(s, events))
    decreases |events|
  {
    hide Next, Inv;
    RunKeepsInv(s, events);
    if events != [] {
      RunReplays(s, events[..|events| - 1]);
      StepReplays(Run(s, events[..|events| - 1]), events[|events| - 1]);
    }
  }

  // ---------------------------------------------------------------- what follows in every run

  lemma StepOnlyAdds(s: Server, ev: Event)
    ensures s.core.stores <= Next(s, ev).core.stores && s.core.answers <= Next(s, ev).core.answers
  {
    hide AdmitUpload, AddPayload, ClaimUpload, ReserveSnapshot, AbortSnapshot, StoreSnapshot, StoreResponse, StoreFinalError,
         ExpireOutgoing, Apply, AllStored, KeepsError, Content, Offered, Move;
    if ev.Moves? && ev.thread in s.threads {
      MoveOnlyAdds(s.core, s.threads[ev.thread], ev.choice);
    }
  }

  lemma MoveOnlyAdds(c: Core, th: Thread, x: Choice)
    ensures c.stores <= Move(c, th, x).0.stores && c.answers <= Move(c, th, x).0.answers
  {
    hide AdmitUpload, AddPayload, ClaimUpload, ReserveSnapshot, AbortSnapshot, StoreSnapshot, StoreResponse, StoreFinalError,
         ExpireOutgoing, AllStored, KeepsError, Content;
  }

  lemma {:induction false} RunOnlyAdds(s: Server, events: seq<Event>, n: nat)
    requires n <= |events|
    ensures Run(s, events[..n]).core.stores <= Run(s, events).core.stores
    decreases |events|
  {
    hide Next;
    if n == |events| {
      assert events[..n] == events;
    } else {
      var init := events[..|events| - 1];
      RunOnlyAdds(s, init, n);
      assert init[..n] == events[..n];
      StepOnlyAdds(Run(s, init), events[|events| - 1]);
    }
  }

  /** Duplicates only get the stored answer, in every run. For each record an answer is kept at most
      once: what was kept at any moment is kept for good, and a record that has an answer has that
      one. Every request that comes after gets the content of the one answer kept for its record,
      under its own token. */
  lemma DuplicatesGetTheOneAnswer(s: Server, events: seq<Event>, n: nat)
    requires Fresh(s) && n <= |events|
    ensures var c := Run(s, events).core;
            && KeptOnce(c.stores) && Run(s, events[..n]).core.stores <= c.stores
            && (forall k :: k in c.engine.uploads && c.engine.uploads[k].response.Some? ==>
                  Kept(c.engine.uploads[k].id, c.engine.uploads[k].response.value) in c.stores)
            && forall i :: 0 <= i < |c.answers| ==> AnswerOk(c.stores, Run(s, events).requests, c.answers[i])
  {
    hide Run, Inv, KeptOnce, AnswerOk;
    RunReplays(s, events);
    RunOnlyAdds(s, events, n);
    var c := Run(s, events).core;
    forall k | k in c.engine.uploads && c.engine.uploads[k].response.Some?
      ensures Kept(c.engine.uploads[k].id, c.engine.uploads[k].response.value) in c.stores
    {
      assert RecordKept(c, c.engine.uploads[k]);
    }
  }
}
