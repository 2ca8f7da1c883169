/** Uploads from end to end: what the client's sender puts on the wire and the server's handler gets,
    with any network and any other traffic between them. */
module EndToEnd {
  import opened Base
  import opened Transfer
  import opened Delivery
  import opened Engine
  import opened Uploads
  import Config
  import Routes
  import Exchanges
  import UploadSender

  /** A request that carries one of the payloads sent for a body of this shape. */
  predicate Genuine(l: Layout, sent: seq<Arrival>, req: Request) {
    && req.p.szx <= MAX_SZX && Layout(SzxSize(req.p.szx), req.p.size) == l
    && Arrival(req.p.num, req.p.more, req.payload) in sent
  }

  /** The network, as far as one upload goes: whatever arrives under its key was sent for it, in any
      order, any number of times. Other keys may bring anything. */
  ghost predicate OnlyGenuine(l: Layout, sent: seq<Arrival>, key: Key, events: seq<Event>) {
    forall i :: 0 <= i < |events| && events[i].Arrives? && events[i].key == key ==> Genuine(l, sent, events[i].req)
  }

  // ---------------------------------------------------------------- invariant

  /** A record belongs to the key it is stored under. */
  ghost predicate Owned(c: Core) {
    forall k :: k in c.engine.uploads ==> c.engine.uploads[k].id in c.owners && c.owners[c.engine.uploads[k].id] == k
  }

  /** A record of the key has the body's shape and was offered nothing but its payloads. */
  ghost predicate Offers(l: Layout, sent: seq<Arrival>, key: Key, c: Core) {
    forall id :: id in c.owners && c.owners[id] == key ==>
      && id in c.history && id in c.shapes && c.shapes[id] == l && forall i :: 0 <= i < |c.history[id]| ==> c.history[id][i] in sent
  }

  ghost predicate Working(l: Layout, sent: seq<Arrival>, key: Key, threads: map<ThreadId, Thread>) {
    forall t :: t in threads && !threads[t].Ended? && threads[t].key == key ==> Genuine(l, sent, threads[t].req)
  }

  /** Owners are those of records there have been. */
  ghost predicate Past(c: Core) {
    forall id :: id in c.owners ==> id < c.engine.nextId
  }

  ghost predicate Sourced(l: Layout, sent: seq<Arrival>, key: Key, s: Server) {
    && Owned(s.core) && Offers(l, sent, key, s.core) && Working(l, sent, key, s.threads)
    && Past(s.core)
  }

  // ---------------------------------------------------------------- every step keeps it

  /** Uploads may go, none is new or changes its identity. */
  ghost predicate Same(e: State, e': State) {
    e.nextId <= e'.nextId && forall k :: k in e'.uploads ==> k in e.uploads && e'.uploads[k].id == e.uploads[k].id
  }

  lemma EvolvesSame(e: State, e': State)
    requires Evolves(e, e')
    ensures Same(e, e')
  {
  }

  lemma SameKeeps(l: Layout, sent: seq<Arrival>, key: Key, c: Core, c': Core)
    requires Owned(c) && Offers(l, sent, key, c) && Same(c.engine, c'.engine)
    requires c'.owners == c.owners && c'.shapes == c.shapes && c'.history == c.history
    ensures Owned(c') && Offers(l, sent, key, c') && (Past(c) ==> Past(c'))
  {
  }

  lemma ArrivingSourced(l: Layout, sent: seq<Arrival>, key: Key, c: Core, k: Key, req: Request, x: Choice)
    requires Records(c) && Owned(c) && Offers(l, sent, key, c) && (k == key ==> Genuine(l, sent, req))
    requires Past(c)
    ensures var (c', t) := Arriving1(c, k, req, x);
            && Owned(c') && Offers(l, sent, key, c') && Past(c')
            && (!t.Ended? ==> t.key == k && t.req == req)
  {
    hide Records, AdmitUpload, MakeWay, Evolves, Genuine, Owned, Offers, Same, Past;
    var e := c.engine;
    var (e', r) := AdmitUpload(e, k, req.p, x.now, x.lifetime, x.maxBody, x.maxEntries, x.granted);
    var e1 := MakeWay(e, k, x.now);
    AdmitEffect(e, k, req.p, x.now, x.lifetime, x.maxBody, x.maxEntries, x.granted);
    EvolvesSame(e, e1);
    SameNumbers(e, e1);
    if x.slips {
    } else if r.Proceed? && k !in e1.uploads {
      if k == key {
        GenuineShape(l, sent, req);
      }
      OpenedSourced(l, sent, key, c, k, req, e1, e');
    } else {
      EvolvesSame(e, e');
      if r.Proceed? {
        IdsOlder(c.(engine := e'), k, c, e');
      }
      SameKeeps(l, sent, key, c, Arriving1(c, k, req, x).0);
    }
  }

  lemma GenuineShape(l: Layout, sent: seq<Arrival>, req: Request)
    requires Genuine(l, sent, req)
    ensures Layout(SzxSize(req.p.szx), req.p.size) == l
  {
  }

  /** A new record: offered nothing yet. */
  lemma OpenedSourced(l: Layout, sent: seq<Arrival>, key: Key, c: Core, k: Key, req: Request, e1: State, e': State)
    requires Owned(c) && Offers(l, sent, key, c) && Same(c.engine, e1) && e1.nextId == c.engine.nextId
    requires Past(c)
    requires k in e'.uploads && e'.uploads == e1.uploads[k := e'.uploads[k]] && e'.nextId == e1.nextId + 1
    requires e'.uploads[k].id == c.engine.nextId && (k == key ==> Layout(SzxSize(req.p.szx), req.p.size) == l)
    ensures var id := c.engine.nextId;
            var c' := c.(engine := e', shapes := c.shapes[id := Layout(SzxSize(req.p.szx), req.p.size)],
                         owners := c.owners[id := k], history := c.history[id := []]);
            Owned(c') && Offers(l, sent, key, c') && Past(c')
  {
  }

  lemma ReadingSourced(l: Layout, sent: seq<Arrival>, key: Key, c: Core, k: Key, id: Id, req: Request, x: Choice)
    requires Owned(c) && Offers(l, sent, key, c) && (k == key ==> Genuine(l, sent, req))
    ensures var (c', t) := Reading1(c, k, id, req, x);
            && Owned(c') && Offers(l, sent, key, c') && (Past(c) ==> Past(c'))
            && (!t.Ended? ==> t.key == k && t.req == req)
  {
    hide AddPayload, AllStored, Evolves, Layout.Fits, Genuine, Owned, Offers, Same, Past;
    var e := c.engine;
    var (e', r) := AddPayload(e, k, id, req.p, req.payload, x.now, x.granted);
    AddEffect(e, k, id, req.p, req.payload, x.now, x.granted);
    if !x.slips {
      if r.Waiting? || r.Complete? {
        FedSame(e, e', k);
        SameKeeps(l, sent, key, c, c.(engine := e'));
        OfferSourced(l, sent, key, c.(engine := e'), k, id, req);
      } else {
        EvolvesSame(e, e');
        SameKeeps(l, sent, key, c, c.(engine := e'));
        SameKeeps(l, sent, key, c, Reading1(c, k, id, req, x).0);
      }
    }
  }

  lemma FedSame(e: State, e': State, k: Key)
    requires k in e.uploads && k in e'.uploads && e'.uploads == e.uploads[k := e'.uploads[k]] && e'.nextId == e.nextId
    requires e'.uploads[k].id == e.uploads[k].id
    ensures Same(e, e')
  {
  }

  lemma SameNumbers(e: State, e': State)
    requires Same(e, e')
    ensures e.nextId <= e'.nextId
  {
  }

  lemma OfferSourced(l: Layout, sent: seq<Arrival>, key: Key, c: Core, k: Key, id: Id, req: Request)
    requires Owned(c) && Offers(l, sent, key, c) && k in c.engine.uploads && c.engine.uploads[k].id == id
    requires k == key ==> Genuine(l, sent, req)
    ensures Owned(Offered(c, id, req)) && Offers(l, sent, key, Offered(c, id, req)) && (Past(c) ==> Past(Offered(c, id, req)))
  {
    assert c.owners[id] == k;
  }

  /** The steps behind: no record is new, no payload is offered. */
  lemma LaterSourced(l: Layout, sent: seq<Arrival>, key: Key, c: Core, th: Thread, x: Choice)
    requires Owned(c) && Offers(l, sent, key, c) && !th.Arriving? && !th.Reading?
    ensures var (c', t) := Move(c, th, x);
            && Owned(c') && Offers(l, sent, key, c') && (Past(c) ==> Past(c'))
            && (!t.Ended? ==> !th.Ended? && t.key == th.key && t.req == th.req)
  {
    hide Offers, Owned, Past, AllStored, Content, StoreSnapshot, ReserveSnapshot, AbortSnapshot, ExpireOutgoing, KeepsError;
    var c' := Move(c, th, x).0;
    LaterSame(c.engine, th, x, c);
    SameKeeps(l, sent, key, c, c');
  }

  lemma LaterSame(e: State, th: Thread, x: Choice, c: Core)
    requires e == c.engine && !th.Arriving? && !th.Reading?
    ensures Same(e, Move(c, th, x).0.engine)
  {
    hide AllStored, Content, StoreSnapshot, ReserveSnapshot, AbortSnapshot, ExpireOutgoing, ClaimUpload, StoreResponse,
         StoreFinalError, Same, KeepsError;
    NothingSame(e);
    SettledSame(e, th, x);
    AsideSame(e, Move(c, th, x).0.engine);
  }

  lemma NothingSame(e: State)
    ensures Same(e, e)
  {
  }

  lemma AsideSame(e: State, e': State)
    ensures UploadsAside(e, e') ==> Same(e, e')
  {
  }

  lemma SettledSame(e: State, th: Thread, x: Choice)
    ensures th.Claiming? ==> Same(e, ClaimUpload(e, th.key, th.id, th.req.sequence, th.req.token).0)
    ensures th.Finishing? ==> Same(e, StoreResponse(e, th.key, th.id, x.response))
    ensures th.Failing? || th.Refusing? ==> Same(e, StoreFinalError(e, th.key, th.req.sequence, th.req.token, x.response))
  {
    hide PutUpload, FreeBytes;
  }

  lemma ForeignSame(e: State, step: Step)
    requires Foreign(step)
    ensures Same(e, Apply(e, step))
  {
    hide Evolves, Apply, Same;
    ForeignEvolves(e, step);
    EvolvesSame(e, Apply(e, step));
  }

  lemma StepSourced(l: Layout, sent: seq<Arrival>, key: Key, s: Server, ev: Event)
    requires Inv(s) && Sourced(l, sent, key, s) && (ev.Arrives? && ev.key == key ==> Genuine(l, sent, ev.req))
    ensures Sourced(l, sent, key, Next(s, ev))
  {
    hide Genuine, Owned, Offers, Past, Records, Calls, Threads, Arriving1, Reading1, Apply, Foreign;
    match ev
    case Arrives(t, k, req) =>
      if k == key {
        NumberedIsGenuine(l, sent, req, t);
      }
    case Happens(step) =>
      if Foreign(step) {
        ForeignSame(s.core.engine, step);
        SameKeeps(l, sent, key, s.core, Next(s, ev).core);
      }
    case Moves(t, x) =>
      if t in s.threads {
        hide Move;
        MoveSourced(l, sent, key, s.core, s.threads[t], x);
      }
  }

  lemma NumberedIsGenuine(l: Layout, sent: seq<Arrival>, req: Request, t: ThreadId)
    ensures Genuine(l, sent, req) ==> Genuine(l, sent, req.(sequence := t))
  {
  }

  lemma MoveSourced(l: Layout, sent: seq<Arrival>, key: Key, c: Core, th: Thread, x: Choice)
    requires Records(c) && Owned(c) && Offers(l, sent, key, c) && (!th.Ended? && th.key == key ==> Genuine(l, sent, th.req))
    requires Past(c)
    ensures var (c', t) := Move(c, th, x);
            && Owned(c') && Offers(l, sent, key, c') && Past(c')
            && (!t.Ended? ==> !th.Ended? && t.key == th.key && t.req == th.req)
  {
    hide Genuine, Owned, Offers, Past, Records, Arriving1, Reading1;
    match th
    case Arriving(k, req) => ArrivingSourced(l, sent, key, c, k, req, x);
    case Reading(k, id, req) => ReadingSourced(l, sent, key, c, k, id, req, x);
    case _ =>
      hide Move;
      LaterSourced(l, sent, key, c, th, x);
  }

  lemma {:induction false} RunSourced(l: Layout, sent: seq<Arrival>, key: Key, s: Server, events: seq<Event>)
    requires Fresh(s) && OnlyGenuine(l, sent, key, events)
    ensures Inv(Run(s, events)) && Sourced(l, sent, key, Run(s, events))
    decreases |events|
  {
    hide Next, Inv, Genuine;
    RunKeepsInv(s, events);
    if events != [] {
      var init := events[..|events| - 1];
      RunSourced(l, sent, key, s, init);
      StepSourced(l, sent, key, Run(s, init), events[|events| - 1]);
    }
  }

  // ---------------------------------------------------------------- both ends

  /** Whatever else reaches the server, and however the payloads of one upload are lost, repeated,
      reordered and interleaved: what the handler gets for a record of that upload's key is the
      client's body. */
  lemma HandlerGetsTheBody(l: Layout, body: seq<byte>, sent: seq<Arrival>, key: Key, s: Server, events: seq<Event>, i: nat)
    requires l.Valid() && |body| == l.size && IsDelivery(l, body, sent)
    requires Fresh(s) && OnlyGenuine(l, sent, key, events)
    requires var c := Run(s, events).core; i < |c.calls| && c.calls[i].id in c.owners && c.owners[c.calls[i].id] == key
    ensures Run(s, events).core.calls[i].body == body
  {
    hide Run, Genuine, Content;
    RunSourced(l, sent, key, s, events);
    var c := Run(s, events).core;
    assert CallOk(c, c.calls[i]);
    DeliveredFrom(l, body, sent, c.history[c.calls[i].id]);
    UploadedBodyIsTheClients(c, c.calls[i], body);
  }

  lemma DeliveredFrom(l: Layout, body: seq<byte>, sent: seq<Arrival>, run: seq<Arrival>)
    requires l.Valid() && |body| == l.size && IsDelivery(l, body, sent) && forall i :: 0 <= i < |run| ==> run[i] in sent
    ensures IsDelivery(l, body, run)
  {
    hide Layout.Block, Layout.Count;
    forall i | 0 <= i < |run|
      ensures 0 <= run[i].num < l.Count() && run[i] == Sent(l, body, run[i].num)
    {
      var k :| 0 <= k < |sent| && sent[k] == run[i];
    }
  }

  /** Every call has an owner, so the theorem speaks of all of them. */
  lemma CallsHaveOwners(s: Server, events: seq<Event>, i: nat)
    requires Fresh(s) && i < |Run(s, events).core.calls|
    ensures Run(s, events).core.calls[i].id in Run(s, events).core.owners
  {
    hide Run, Content;
    RunKeepsInv(s, events);
    RecordsHaveOwners(s, events);
    assert CallOk(Run(s, events).core, Run(s, events).core.calls[i]);
  }

  ghost predicate AllOwned(c: Core) {
    forall id :: id in c.shapes ==> id in c.owners
  }

  lemma {:induction false} RecordsHaveOwners(s: Server, events: seq<Event>)
    requires Fresh(s)
    ensures AllOwned(Run(s, events).core)
    decreases |events|
  {
    hide Next;
    if events != [] {
      RecordsHaveOwners(s, events[..|events| - 1]);
      ShapesOwned(Run(s, events[..|events| - 1]), events[|events| - 1]);
    }
  }

  lemma ShapesOwned(s: Server, ev: Event)
    requires AllOwned(s.core)
    ensures AllOwned(Next(s, ev).core)
  {
    hide Move, Apply, Foreign;
    if ev.Moves? && ev.thread in s.threads {
      hide AllOwned;
      MoveOwned(s.core, s.threads[ev.thread], ev.choice);
    }
  }

  lemma MoveOwned(c: Core, th: Thread, x: Choice)
    requires AllOwned(c)
    ensures AllOwned(Move(c, th, x).0)
  {
    hide AdmitUpload, AddPayload, ClaimUpload, ReserveSnapshot, AbortSnapshot, StoreSnapshot, StoreResponse, StoreFinalError,
         ExpireOutgoing, AllStored, KeepsError, Content;
  }

  /** The sender and the server together: an upload against any answers on any connection, a server
      with any other traffic, and a network that brings under the upload's key only what was sent. */
  method UploadAndServe(config: Config.Params, body: seq<byte>, szx: nat, history: seq<Routes.Op>, ctxDone: bool,
                        token: Routes.Token, turns: nat -> Exchanges.Turn, answers: seq<UploadSender.Event>,
                        ghost key: Key, ghost s: Server, ghost events: seq<Event>)
    returns (status: Option<UploadSender.Status>, sent: seq<Arrival>)
    requires Config.Resolved(config) && szx <= MAX_SZX && Layout(SzxSize(szx), |body|).Count() <= MAX_NUM + 1
    requires Fresh(s)
    ensures OnlyGenuine(Layout(SzxSize(szx), |body|), sent, key, events) ==>
            var c := Run(s, events).core;
            forall i :: 0 <= i < |c.calls| && c.calls[i].id in c.owners && c.owners[c.calls[i].id] == key ==> c.calls[i].body == body
  {
    hide OnlyGenuine, Run, IsDelivery, Layout.Count;
    var tokens, routed;
    status, sent, tokens, routed := UploadSender.Upload(config, body, szx, history, ctxDone, token, turns, answers);
    ghost var l := Layout(SzxSize(szx), |body|);
    if OnlyGenuine(l, sent, key, events) {
      forall i | 0 <= i < |Run(s, events).core.calls| && Run(s, events).core.calls[i].id in Run(s, events).core.owners
                 && Run(s, events).core.owners[Run(s, events).core.calls[i].id] == key
        ensures Run(s, events).core.calls[i].body == body
      {
        HandlerGetsTheBody(l, body, sent, key, s, events, i);
      }
    }
  }
}
