/** The server's side of an upload when nothing interferes: requests handled one after the other,
    in whatever order and number the network brings them. */
module UploadCompletes {
  import opened Base
  import opened Transfer
  import opened Delivery
  import opened Engine
  import opened Uploads

  /** One request through all its critical sections. */
  ghost function Handle(c: Core, key: Key, req: Request, x: Choice): Core {
    var (c1, t1) := Arriving1(c, key, req, x);
    if !t1.Reading? then c1
    else
      var (c2, t2) := Reading1(c1, key, t1.id, req, x);
      if !t2.Claiming? then c2
      else
        var (c3, t3) := Claiming1(c2, key, t2.id, req);
        if !t3.Running? then c3
        else
          var (c4, t4) := Running1(c3, key, t3.id, req, t3.blocks, x);
          if t4.Failing? then Failing1(c4, key, req, x).0 else KeepAnswer(c4, key, t4.id, req, x, t4.Copying?)
  }

  /** After the call: a large answer is copied, kept and its first block loaded; then the answer to
      this request is kept for the record. */
  ghost function KeepAnswer(c: Core, key: Key, id: Id, req: Request, x: Choice, large: bool): Core {
    if !large then Finishing1(c, key, id, req, x).0
    else
      var (c1, t1) := Copying1(c, key, id, req, x);
      if !t1.Storing? then Failing1(c1, key, req, x).0
      else
        var (c2, t2) := Storing1(c1, key, id, req, t1.snapshot, x);
        if !t2.Loading? then Failing1(c2, key, req, x).0
        else
          var (c3, t3) := Loading1(c2, key, id, req, x);
          if t3.Failing? then Failing1(c3, key, req, x).0 else Finishing1(c3, key, id, req, x).0
  }

  /** ... and a sequence of requests, each with its own clock and whatever else the world decides. */
  ghost function HandleAll(c: Core, key: Key, reqs: seq<Request>, xs: seq<Choice>): Core
    requires |xs| == |reqs|
    decreases |reqs|
  {
    var n := |reqs| - 1;
    if reqs == [] then c else Handle(HandleAll(c, key, reqs[..n], xs[..n]), key, reqs[n], xs[n])
  }

  const FRESH := Core(Empty(0, 0), [], [], map[], map[], map[], [], [])

  /** Requests that bring these blocks of one body. */
  ghost predicate Brings(reqs: seq<Request>, szx: nat, size: int, mode: int, run: seq<Arrival>) {
    && |reqs| == |run|
    && forall i :: 0 <= i < |run| ==>
         reqs[i].p == Params(run[i].num, run[i].more, szx, size, mode) && reqs[i].payload == run[i].payload
  }

  /** Nothing is refused; a large answer is within the limit and still there when it is loaded. */
  predicate Quiet(x: Choice, size: int) {
    && x.granted && 0 < x.lifetime && size <= x.maxBody && 0 < x.maxBody && !x.slips && !x.fails
    && (x.large ==> 0 <= x.size <= MAX_BODY && x.now < x.expires)
  }

  /** No request comes later than the lifetime after an earlier one. */
  ghost predicate InTime(xs: seq<Choice>) {
    forall i, k :: 0 <= i < k < |xs| ==> xs[k].now < xs[i].now + xs[i].lifetime
  }

  /** The engine with one upload under way. */
  ghost predicate UnderWay(c: Core, key: Key, szx: nat, size: int, mode: int, expires: int, blocks: Blocks)
    requires szx <= MAX_SZX && 0 <= size
  {
    var e, l := c.engine, Layout(SzxSize(szx), size);
    && !e.uploadsClosed && e.nextId == 1 && e.uploads.Keys == {key} && c.calls == [] && c.repeats == [] && c.answers == []
    && c.shapes == map[0 := l] && 0 in c.history && e.snapshots == map[] && e.outgoing == map[] && !e.outgoingClosed
    && var u := e.uploads[key];
       && u.id == 0 && u.szx == szx && u.size == size && u.mode == mode && u.assembly && !u.completed
       && u.expires == expires && u.blocks == blocks && u.bytes == SumTo(blocks, l.Count())
       && e.ledger == Ledger(u.bytes, 1, u.bytes, 1)
  }

  /** The application has had the body, once, and its answer is kept. */
  ghost predicate HandedOver(c: Core, key: Key, szx: nat, size: int, mode: int, expires: int, reply: Reply, body: seq<byte>) {
    && !c.engine.uploadsClosed && key in c.engine.uploads && c.calls == [Call(0, body)] && c.repeats == []
    && var u := c.engine.uploads[key];
       && u.id == 0 && u.szx == szx && u.size == size && u.mode == mode && u.completed && u.expires == expires
       && u.response == Some(reply)
  }

  /** After the completed upload a further payload is answered from what is kept. */
  lemma LaterOnesReplay(c: Core, key: Key, szx: nat, size: int, mode: int, expires: int, reply: Reply, body: seq<byte>,
                        req: Request, x: Choice)
    requires HandedOver(c, key, szx, size, mode, expires, reply, body) && x.now < expires && !x.slips && !x.fails
    requires req.p.szx == szx && req.p.size == size && req.p.mode == mode
    ensures var c' := Handle(c, key, req, x);
            && HandedOver(c', key, szx, size, mode, expires, reply, body)
            && c'.answers == c.answers + [Answer(req.sequence, 0, reply.(token := req.token))]
  {
    hide AddPayload, ClaimUpload, Admissible, TrySlot, PutUpload;
  }

  lemma FirstIsAdmitted(key: Key, req: Request, x: Choice)
    requires Quiet(x, req.p.size) && req.p.szx <= MAX_SZX && 0 <= req.p.size
    requires Layout(SzxSize(req.p.szx), req.p.size).Count() <= MAX_TRACKED
    ensures var (c, t) := Arriving1(FRESH, key, req, x);
            t == Reading(key, 0, req) && UnderWay(c, key, req.p.szx, req.p.size, req.p.mode, x.now + x.lifetime, map[])
  {
    NothingStored(Layout(SzxSize(req.p.szx), req.p.size).Count());
    assert Admissible(req.p.szx, req.p.size, x.maxBody).None?;
  }

  lemma NextIsAdmitted(c: Core, key: Key, szx: nat, size: int, mode: int, expires: int, blocks: Blocks, req: Request, x: Choice)
    requires szx <= MAX_SZX && 0 <= size && Quiet(x, size) && UnderWay(c, key, szx, size, mode, expires, blocks)
    requires req.p.szx == szx && req.p.size == size && req.p.mode == mode && x.now < expires
    ensures var (c', t) := Arriving1(c, key, req, x);
            t == Reading(key, 0, req) && UnderWay(c', key, szx, size, mode, x.now + x.lifetime, blocks)
  {
    hide Admissible, TrySlot, SumTo, Layout.Count;
  }

  /** The payload is stored, or known already; the body is complete if and only if all are. */
  lemma PayloadIsStored(c: Core, key: Key, szx: nat, size: int, mode: int, expires: int, blocks: Blocks, req: Request, x: Choice)
    requires szx <= MAX_SZX && 0 <= size <= MAX_BODY && Quiet(x, size) && UnderWay(c, key, szx, size, mode, expires, blocks)
    requires req.p.szx == szx && req.p.size == size && req.p.mode == mode && Stored(Layout(SzxSize(szx), size), blocks)
    requires Layout(SzxSize(szx), size).Fits(req.p.num, req.p.more, req.payload)
    ensures var l := Layout(SzxSize(szx), size);
            var blocks' := Receive(l, blocks, Arrival(req.p.num, req.p.more, req.payload));
            var (c', t) := Reading1(c, key, 0, req, x);
            && UnderWay(c', key, szx, size, mode, expires, blocks')
            && t == if AllStored(l, blocks') then Claiming(key, 0, req) else Ended
  {
    hide SumTo, Layout.Count, AllStored, IsFirstGap, Layout.Fits, Stored, Layout.Len;
    var l, e := Layout(SzxSize(szx), size), c.engine;
    RoomForPayload(l, blocks, req.p.num, req.p.more, req.payload);
    assert TryBytes(e.ledger, |req.payload|, true).Some?;
    if req.p.num !in blocks {
      SumToInsert(blocks, req.p.num, req.payload, l.Count());
    }
  }

  lemma RoomForPayload(l: Layout, b: Blocks, num: int, more: bool, payload: seq<byte>)
    requires l.Valid() && 16 <= l.blockSize <= 1024 && l.size <= MAX_BODY && Stored(l, b) && l.Fits(num, more, payload)
    ensures SumTo(b, l.Count()) + |payload| <= ENGINE_BYTES && 0 <= num < l.Count()
  {
    hide SumTo, Layout.Count;
    SumToAtMost(l, b, l.Count());
    l.Extent(num);
    l.Extent(l.Count() - 1);
  }

  lemma {:induction false} SumToAtMost(l: Layout, b: Blocks, n: nat)
    requires l.Valid() && Stored(l, b) && n <= l.Count()
    ensures SumTo(b, n) <= if n < l.Count() then n * l.blockSize else l.size
  {
    if n > 0 {
      SumToAtMost(l, b, n - 1);
      l.Extent(n - 1);
    }
  }

  /** A record whose body has been handed over and that waits for its answer. */
  ghost predicate Waits(c: Core, key: Key, szx: nat, size: int, mode: int, expires: int, body: seq<byte>) {
    var e := c.engine;
    && !e.uploadsClosed && key in e.uploads && c.calls == [Call(0, body)] && c.repeats == [] && c.answers == []
    && var u := e.uploads[key];
       u.id == 0 && u.szx == szx && u.size == size && u.mode == mode && u.completed && u.expires == expires
  }

  lemma FinishKeeps(c: Core, key: Key, szx: nat, size: int, mode: int, expires: int, req: Request, x: Choice, body: seq<byte>)
    requires Waits(c, key, szx, size, mode, expires, body) && !x.fails
    ensures var c' := Finishing1(c, key, 0, req, x).0;
            HandedOver(c', key, szx, size, mode, expires, x.response, body) && c'.answers == []
  {
    hide PutUpload;
  }

  /** With the last missing block the body reaches the application. */
  lemma CompleteIsHandedOver(c: Core, key: Key, szx: nat, size: int, mode: int, expires: int, blocks: Blocks, req: Request, x: Choice)
    requires szx <= MAX_SZX && 0 <= size <= MAX_BODY && Quiet(x, size) && UnderWay(c, key, szx, size, mode, expires, blocks)
    requires AllStored(Layout(SzxSize(szx), size), blocks) && Stored(Layout(SzxSize(szx), size), blocks)
    ensures var (c3, t3) := Claiming1(c, key, 0, req);
            && t3 == Running(key, 0, req, blocks)
            && var (c4, t4) := Running1(c3, key, 0, req, blocks, x);
               && (t4 == if x.large then Copying(key, 0, req) else Finishing(key, 0, req))
               && Waits(c4, key, szx, size, mode, expires, Content(Layout(SzxSize(szx), size), blocks))
               && c4.engine.ledger.slots == c4.engine.ledger.processSlots == 1
               && c4.engine.ledger.bytes == c4.engine.ledger.processBytes <= MAX_BODY
               && c4.engine.snapshots == map[] && c4.engine.outgoing == map[] && !c4.engine.outgoingClosed
  {
    hide SumTo, Layout.Count, AllStored, Content, Stored;
    var l := Layout(SzxSize(szx), size);
    SumToAtMost(l, blocks, l.Count());
  }

  /** A large answer finds room for its copy, is kept, and is found again. */
  lemma LargeAnswerIsKept(c: Core, key: Key, szx: nat, size: int, mode: int, expires: int, req: Request, x: Choice, body: seq<byte>)
    requires Waits(c, key, szx, size, mode, expires, body) && Quiet(x, size) && x.large
    requires c.engine.ledger.slots == c.engine.ledger.processSlots == 1
    requires c.engine.ledger.bytes == c.engine.ledger.processBytes <= MAX_BODY
    requires c.engine.snapshots == map[] && c.engine.outgoing == map[] && !c.engine.outgoingClosed
    ensures var (c1, t1) := Copying1(c, key, 0, req, x);
            && t1 == Storing(key, 0, req, x.snapshot)
            && var (c2, t2) := Storing1(c1, key, 0, req, x.snapshot, x);
               && t2 == Loading(key, 0, req)
               && var (c3, t3) := Loading1(c2, key, 0, req, x);
                  t3 == Finishing(key, 0, req) && Waits(c3, key, szx, size, mode, expires, body)
  {
    CopyIsReserved(c.engine, x);
    var (c1, t1) := Copying1(c, key, 0, req, x);
    var (c2, t2) := Storing1(c1, key, 0, req, x.snapshot, x);
    CopyIsKept(c1.engine, req.replyKey, x);
  }

  lemma CopyIsReserved(e: State, x: Choice)
    requires x.granted && 0 <= x.size <= MAX_BODY && e.snapshots == map[]
    requires e.ledger.slots == e.ledger.processSlots == 1 && e.ledger.bytes == e.ledger.processBytes <= MAX_BODY
    ensures var e' := ReserveSnapshot(e, x.snapshot, x.size, x.granted, x.granted);
            && x.snapshot in e'.snapshots && e'.outgoing == e.outgoing && e'.outgoingClosed == e.outgoingClosed
  {
  }

  lemma CopyIsKept(e: State, replyKey: Key, x: Choice)
    requires x.snapshot in e.snapshots && e.outgoing == map[] && !e.outgoingClosed
    ensures var e' := StoreSnapshot(e, x.snapshot, replyKey, x.expires, None, false);
            replyKey in e'.outgoing && e'.outgoing[replyKey].expires == x.expires
  {
  }

  lemma AnswerIsKept(c: Core, key: Key, szx: nat, size: int, mode: int, expires: int, req: Request, x: Choice, body: seq<byte>)
    requires Waits(c, key, szx, size, mode, expires, body) && Quiet(x, size)
    requires c.engine.ledger.slots == c.engine.ledger.processSlots == 1
    requires c.engine.ledger.bytes == c.engine.ledger.processBytes <= MAX_BODY
    requires c.engine.snapshots == map[] && c.engine.outgoing == map[] && !c.engine.outgoingClosed
    ensures var c' := KeepAnswer(c, key, 0, req, x, x.large);
            HandedOver(c', key, szx, size, mode, expires, x.response, body) && c'.answers == []
  {
    hide Copying1, Storing1, Loading1, Finishing1, Waits, HandedOver;
    if x.large {
      LargeAnswerIsKept(c, key, szx, size, mode, expires, req, x, body);
      var c1 := Copying1(c, key, 0, req, x).0;
      var c2 := Storing1(c1, key, 0, req, x.snapshot, x).0;
      var c3 := Loading1(c2, key, 0, req, x).0;
      FinishKeeps(c3, key, szx, size, mode, expires, req, x, body);
    } else {
      FinishKeeps(c, key, szx, size, mode, expires, req, x, body);
    }
  }

  /** One request more: the upload goes on, or reaches the application. */
  lemma RequestGoesOn(c: Core, key: Key, szx: nat, size: int, mode: int, expires: int, blocks: Blocks, req: Request, x: Choice)
    requires szx <= MAX_SZX && 0 <= size <= MAX_BODY && Quiet(x, size)
    requires Layout(SzxSize(szx), size).Count() <= MAX_TRACKED
    requires req.p.szx == szx && req.p.size == size && req.p.mode == mode && Stored(Layout(SzxSize(szx), size), blocks)
    requires if blocks == map[] && c == FRESH then true
             else UnderWay(c, key, szx, size, mode, expires, blocks) && x.now < expires
    requires Layout(SzxSize(szx), size).Fits(req.p.num, req.p.more, req.payload)
    ensures var l := Layout(SzxSize(szx), size);
            var blocks' := Receive(l, blocks, Arrival(req.p.num, req.p.more, req.payload));
            var c' := Handle(c, key, req, x);
            if AllStored(l, blocks')
            then HandedOver(c', key, szx, size, mode, x.now + x.lifetime, x.response, Content(l, blocks')) && c'.answers == []
            else UnderWay(c', key, szx, size, mode, x.now + x.lifetime, blocks')
  {
    hide Arriving1, Reading1, Claiming1, Running1, KeepAnswer, Waits, UnderWay, HandedOver, Layout.Count, Layout.Fits, AllStored,
         Receive, Content, Stored, SumTo;
    var (c1, t1) := Arriving1(c, key, req, x);
    if c == FRESH && blocks == map[] {
      FirstIsAdmitted(key, req, x);
    } else {
      NextIsAdmitted(c, key, szx, size, mode, expires, blocks, req, x);
    }
    PayloadIsStored(c1, key, szx, size, mode, x.now + x.lifetime, blocks, req, x);
    var l := Layout(SzxSize(szx), size);
    var blocks' := Receive(l, blocks, Arrival(req.p.num, req.p.more, req.payload));
    var (c2, t2) := Reading1(c1, key, 0, req, x);
    if AllStored(l, blocks') {
      StillStored(l, blocks, Arrival(req.p.num, req.p.more, req.payload));
      CompleteIsHandedOver(c2, key, szx, size, mode, x.now + x.lifetime, blocks', req, x);
      var c3 := Claiming1(c2, key, 0, req).0;
      var c4 := Running1(c3, key, 0, req, blocks', x).0;
      AnswerIsKept(c4, key, szx, size, mode, x.now + x.lifetime, req, x, Content(l, blocks'));
    }
  }

  lemma StillStored(l: Layout, b: Blocks, a: Arrival)
    requires l.Valid() && Stored(l, b) && l.Fits(a.num, a.more, a.payload)
    ensures Stored(l, Receive(l, b, a))
  {
  }

  /** How many requests it took to complete the body. */
  ghost function CompletedAfter(l: Layout, run: seq<Arrival>): (n: nat)
    requires l.Valid()
    ensures n <= |run| && (run != [] ==> 0 < n)
    decreases |run|
  {
    if run == [] then 0
    else if |run| > 1 && AllStored(l, ReceiveAll(l, map[], run[..|run| - 1])) then CompletedAfter(l, run[..|run| - 1])
    else |run|
  }

  /** What the requests behind the completing one are answered. */
  ghost function LaterAnswers(reqs: seq<Request>, n: nat, reply: Reply): seq<Answer>
    requires n <= |reqs|
  {
    seq(|reqs| - n, i requires 0 <= i < |reqs| - n => Answer(reqs[n + i].sequence, 0, reply.(token := reqs[n + i].token)))
  }

  /** An upload, and what has become of it. */
  ghost predicate Progress(c: Core, key: Key, szx: nat, mode: int, body: seq<byte>, run: seq<Arrival>,
                           reqs: seq<Request>, xs: seq<Choice>)
    requires szx <= MAX_SZX && |reqs| == |run| == |xs|
  {
    var l := Layout(SzxSize(szx), |body|);
    if run == [] then c == FRESH
    else if AllStored(l, ReceiveAll(l, map[], run)) then
      var n := CompletedAfter(l, run);
      && HandedOver(c, key, szx, |body|, mode, xs[n - 1].now + xs[n - 1].lifetime, xs[n - 1].response, body)
      && c.answers == LaterAnswers(reqs, n, xs[n - 1].response)
    else UnderWay(c, key, szx, |body|, mode, xs[|xs| - 1].now + xs[|xs| - 1].lifetime, ReceiveAll(l, map[], run))
  }

  /** Upload completion: for every body within the limits and every delivery of its blocks, in any
      order and with any repetition, handled one after the other in time, the application is called
      exactly when every NUM has arrived, once, with the client's body; and every request behind the
      completing one is answered with the application's answer under its own token. */
  lemma {:induction false} UploadCompletes(key: Key, szx: nat, mode: int, body: seq<byte>, run: seq<Arrival>,
                                           reqs: seq<Request>, xs: seq<Choice>)
    requires szx <= MAX_SZX && |body| <= MAX_BODY && |reqs| == |xs|
    requires var l := Layout(SzxSize(szx), |body|); l.Count() <= MAX_TRACKED && IsDelivery(l, body, run)
    requires Brings(reqs, szx, |body|, mode, run)
    requires InTime(xs) && forall i :: 0 <= i < |xs| ==> Quiet(xs[i], |body|)
    ensures var l := Layout(SzxSize(szx), |body|);
            && Progress(HandleAll(FRESH, key, reqs, xs), key, szx, mode, body, run, reqs, xs)
            && (AllStored(l, ReceiveAll(l, map[], run)) <==> forall n :: 0 <= n < l.Count() ==> Arrived(run, n))
    decreases |run|
  {
    hide Handle, Progress, Layout.Count, Layout.Block, AllStored, Content, Quiet, ReceiveAll;
    var l := Layout(SzxSize(szx), |body|);
    EveryDeliveryIsExact(l, body, run);
    if run == [] {
      NoProgress(key, szx, mode, body);
    } else {
      var n := |run| - 1;
      UploadCompletes(key, szx, mode, body, run[..n], reqs[..n], xs[..n]);
      OneMoreRequest(HandleAll(FRESH, key, reqs[..n], xs[..n]), key, szx, mode, body, run, reqs, xs);
    }
  }

  lemma NoProgress(key: Key, szx: nat, mode: int, body: seq<byte>)
    requires szx <= MAX_SZX
    ensures Progress(FRESH, key, szx, mode, body, [], [], [])
  {
  }

  lemma OneMoreRequest(c: Core, key: Key, szx: nat, mode: int, body: seq<byte>, run: seq<Arrival>,
                       reqs: seq<Request>, xs: seq<Choice>)
    requires szx <= MAX_SZX && |body| <= MAX_BODY && |reqs| == |xs| == |run| && run != []
    requires var l := Layout(SzxSize(szx), |body|); l.Count() <= MAX_TRACKED && IsDelivery(l, body, run)
    requires Brings(reqs, szx, |body|, mode, run) && InTime(xs) && Quiet(xs[|xs| - 1], |body|)
    requires var n := |run| - 1; Progress(c, key, szx, mode, body, run[..n], reqs[..n], xs[..n])
    ensures var n := |run| - 1; Progress(Handle(c, key, reqs[n], xs[n]), key, szx, mode, body, run, reqs, xs)
  {
    hide Handle, Progress, Layout.Count, Layout.Block, AllStored, Content, Quiet, IsDelivery, Brings, InTime, ReceiveAll;
    var l, n := Layout(SzxSize(szx), |body|), |run| - 1;
    if n > 0 && AllStored(l, ReceiveAll(l, map[], run[..n])) {
      RequestBehind(c, key, szx, mode, body, run, reqs, xs);
    } else {
      RequestBefore(c, key, szx, mode, body, run, reqs, xs);
    }
  }

  /** A request behind the completing one. */
  lemma RequestBehind(c: Core, key: Key, szx: nat, mode: int, body: seq<byte>, run: seq<Arrival>,
                      reqs: seq<Request>, xs: seq<Choice>)
    requires szx <= MAX_SZX && |reqs| == |xs| == |run| && |run| > 1
    requires Brings(reqs, szx, |body|, mode, run) && InTime(xs) && Quiet(xs[|xs| - 1], |body|)
    requires var l := Layout(SzxSize(szx), |body|); AllStored(l, ReceiveAll(l, map[], run[..|run| - 1]))
    requires var n := |run| - 1; Progress(c, key, szx, mode, body, run[..n], reqs[..n], xs[..n])
    ensures var n := |run| - 1; Progress(Handle(c, key, reqs[n], xs[n]), key, szx, mode, body, run, reqs, xs)
  {
    hide Handle, UnderWay, HandedOver, Layout.Count, AllStored, ReceiveAll;
    var l, n := Layout(SzxSize(szx), |body|), |run| - 1;
    var m := CompletedAfter(l, run[..n]);
    var reply := xs[m - 1].response;
    LaterOnesReplay(c, key, szx, |body|, mode, xs[m - 1].now + xs[m - 1].lifetime, reply, body, reqs[n], xs[n]);
    NothingLost(l, run);
    assert LaterAnswers(reqs, m, reply)
        == LaterAnswers(reqs[..n], m, reply) + [Answer(reqs[n].sequence, 0, reply.(token := reqs[n].token))];
  }

  /** A request before that, or the completing one itself. */
  lemma RequestBefore(c: Core, key: Key, szx: nat, mode: int, body: seq<byte>, run: seq<Arrival>,
                      reqs: seq<Request>, xs: seq<Choice>)
    requires szx <= MAX_SZX && |body| <= MAX_BODY && |reqs| == |xs| == |run| && run != []
    requires var l := Layout(SzxSize(szx), |body|); l.Count() <= MAX_TRACKED && IsDelivery(l, body, run)
    requires Brings(reqs, szx, |body|, mode, run) && InTime(xs) && Quiet(xs[|xs| - 1], |body|)
    requires var l := Layout(SzxSize(szx), |body|); |run| == 1 || !AllStored(l, ReceiveAll(l, map[], run[..|run| - 1]))
    requires var n := |run| - 1; Progress(c, key, szx, mode, body, run[..n], reqs[..n], xs[..n])
    ensures var n := |run| - 1; Progress(Handle(c, key, reqs[n], xs[n]), key, szx, mode, body, run, reqs, xs)
  {
    hide Handle, UnderWay, HandedOver, Layout.Count, Layout.Block, AllStored, Content, Layout.Fits;
    var l, n := Layout(SzxSize(szx), |body|), |run| - 1;
    var b := ReceiveAll(l, map[], run[..n]);
    EveryDeliveryIsExact(l, body, run);
    FirstPayloadWins(l, run[..n], 0);
    var expires := if n == 0 then 0 else xs[n - 1].now + xs[n - 1].lifetime;
    RequestGoesOn(c, key, szx, |body|, mode, expires, b, reqs[n], xs[n]);
  }

  lemma NothingLost(l: Layout, run: seq<Arrival>)
    requires l.Valid() && run != [] && AllStored(l, ReceiveAll(l, map[], run[..|run| - 1]))
    ensures AllStored(l, ReceiveAll(l, map[], run))
  {
  }
}
