/** The bodies a server keeps for block-wise delivery. Storing another response under a key makes
    a new generation; jobs scheduled for the old one may still be anywhere in their work. */
module Generations {
  import opened Base
  import opened Transfer
  import opened Delivery
  import opened QCodec
  import opened BodyReceiver

  type Key = nat
  type Id = nat
  type JobId = nat
  type HandId = nat

  datatype Generation = Generation(id: Id, etag: seq<byte>, code: nat, options: Extra, body: seq<byte>, expires: int)

  /** Options of the stored response that its payloads repeat. */
  datatype Extra = Extra(observe: seq<Option<nat>>, maxAge: seq<Option<nat>>)

  /** A job's view: where its body was, and which body it was. */
  datatype JobRef = JobRef(key: Key, szx: nat, token: seq<byte>, kind: Kind, recovery: bool, generation: Id)

  /** What has happened, in order: payloads built, with the generation the builder insisted on, if
      any; payloads handed to the network, each with the place of its building; and generations
      removed. */
  datatype Entry =
    | Built(generation: Id, expected: Option<Id>, response: Response)
    | Sent(generation: Id, response: Response, built: nat)
    | Gone(generation: Id)

  /** A payload in somebody's hands, built and not yet sent. */
  datatype Held = Held(generation: Id, response: Response, built: nat)

  datatype State = State(
    senders: map<Key, Generation>,
    jobs: map<JobId, JobRef>,
    hands: map<HandId, Held>,
    nextId: Id,
    history: map<Id, Generation>,   // every generation there has been
    trace: seq<Entry>)

  const START := State(map[], map[], map[], 0, map[], [])

  /** Building is one critical section. Sending comes after it and takes none: the payload may wait
      for the rate limit or the window of the connection while anything else happens. Jobs may
      take any of their steps at any time, in any order. */
  datatype Step =
    | Cache(key: Key, etag: seq<byte>, code: nat, options: Extra, body: seq<byte>, expires: int)
    | Remove(key: Key)
    | Plan(job: JobId, key: Key, szx: nat, token: seq<byte>, kind: Kind, recovery: bool, expected: Option<Id>)
    | BuildFor(job: JobId, hand: HandId, num: int, now: int)
    | Answer(hand: HandId, key: Key, szx: nat, num: int, token: seq<byte>, kind: Kind, recovery: bool, now: int)
    | Transmit(hand: HandId)
    | Discard(hand: HandId)

  function Drop(s: State, key: Key): State
    requires key in s.senders
  {
    s.(senders := s.senders - {key}, trace := s.trace + [Gone(s.senders[key].id)])
  }

  function Store(s: State, key: Key, etag: seq<byte>, code: nat, options: Extra, body: seq<byte>, expires: int): State {
    var s1 := if key in s.senders then Drop(s, key) else s;
    var g := Generation(s1.nextId, etag, code, options, body, expires);
    s1.(senders := s1.senders[key := g], nextId := s1.nextId + 1, history := s1.history[g.id := g])
  }

  /** One payload of a stored body, or nothing when the body has no such block. Recovery payloads
      are no notifications. */
  function Payload(g: Generation, szx: nat, num: int, token: seq<byte>, kind: Kind, recovery: bool): (r: Option<Response>) {
    if szx > MAX_SZX then None
    else
      var l := Layout(SzxSize(szx), |g.body|);
      if num < 0 || num >= l.Count() || l.Count() > MAX_NUM + 1 then None
      else
        match EncodeOption(BlockRef(szx, num, num < l.Count() - 1))
        case Err(_) => None
        case Ok(v) =>
          if v < 0 then None
          else Some(Response(kind, g.code, token, false, [Some(v as nat)], [Some(|g.body|)], [g.etag],
                             if recovery then [] else g.options.observe, g.options.maxAge,
                             Some(l.Block(g.body, num))))
  }

  /** Builds one payload of whatever is stored under the key, unless another generation than the
      expected one is. An expired body is dropped instead. */
  function Build(s: State, hand: HandId, key: Key, szx: nat, num: int, token: seq<byte>, kind: Kind, recovery: bool,
                 expected: Option<Id>, now: int): State
  {
    if hand in s.hands || key !in s.senders || (expected.Some? && s.senders[key].id != expected.value) then s
    else if s.senders[key].expires <= now then Drop(s, key)
    else
      match Payload(s.senders[key], szx, num, token, kind, recovery)
      case None => s
      case Some(r) => Taken(s, hand, Built(s.senders[key].id, expected, r))
  }

  function Taken(s: State, hand: HandId, e: Entry): State
    requires e.Built?
  {
    s.(hands := s.hands[hand := Held(e.generation, e.response, |s.trace|)], trace := s.trace + [e])
  }

  function Out(s: State, hand: HandId): State
    requires hand in s.hands
  {
    var held := s.hands[hand];
    s.(hands := s.hands - {hand}, trace := s.trace + [Sent(held.generation, held.response, held.built)])
  }

  function Apply(s: State, step: Step): State {
    match step
    case Cache(key, etag, code, options, body, expires) => Store(s, key, etag, code, options, body, expires)
    case Remove(key) => if key in s.senders then Drop(s, key) else s
    case Plan(job, key, szx, token, kind, recovery, expected) =>
      if key !in s.senders || (expected.Some? && s.senders[key].id != expected.value) then s
      else s.(jobs := s.jobs[job := JobRef(key, szx, token, kind, recovery, s.senders[key].id)])
    case BuildFor(job, hand, num, now) =>
      if job !in s.jobs then s
      else var j := s.jobs[job]; Build(s, hand, j.key, j.szx, num, j.token, j.kind, j.recovery, Some(j.generation), now)
    case Answer(hand, key, szx, num, token, kind, recovery, now) =>
      Build(s, hand, key, szx, num, token, kind, recovery, None, now)
    case Transmit(hand) => if hand in s.hands then Out(s, hand) else s
    case Discard(hand) => s.(hands := s.hands - {hand})
  }

  function Run(steps: seq<Step>): State {
    if steps == [] then START else Apply(Run(steps[..|steps| - 1]), steps[|steps| - 1])
  }

  // ---------------------------------------------------------------- invariant

  /** The response is a block of this generation's body and says so. */
  ghost predicate Genuine(g: Generation, r: Response) {
    && r.code == g.code && r.etag == [g.etag] && r.size2 == [Some(|g.body|)] && BlockOf(r).Some?
    && var b := BlockOf(r).value;
       && b.szx <= MAX_SZX
       && var l := Layout(SzxSize(b.szx), |g.body|);
          0 <= b.num < l.Count() && b.more == (b.num < l.Count() - 1) && r.payload == Some(l.Block(g.body, b.num))
  }

  ghost predicate Removed(trace: seq<Entry>, id: Id, n: int)
    requires n <= |trace|
  {
    exists i :: 0 <= i < n && trace[i] == Gone(id)
  }

  ghost predicate Tables(s: State) {
    && (forall k :: k in s.senders ==> var g := s.senders[k]; g.id in s.history && s.history[g.id] == g)
    && (forall j, k :: j in s.senders && k in s.senders && j != k ==> s.senders[j].id != s.senders[k].id)
    && (forall id :: id in s.history ==> id < s.nextId)
    && (forall j :: j in s.jobs ==> s.jobs[j].generation in s.history)
  }

  ghost predicate Current(s: State, id: Id) {
    exists k :: k in s.senders && s.senders[k].id == id
  }

  /** A generation is stored from its creation to its removal. */
  ghost predicate Lives(s: State) {
    && (forall id :: id in s.history ==> (Current(s, id) <==> !Removed(s.trace, id, |s.trace|)))
    && (forall i :: 0 <= i < |s.trace| && s.trace[i].Gone? ==> s.trace[i].generation in s.history)
  }

  /** A payload was built from a generation that was still there, the one its builder wanted. */
  ghost predicate WellBuilt(history: map<Id, Generation>, trace: seq<Entry>, i: nat)
    requires i < |trace| && trace[i].Built?
  {
    var e := trace[i];
    && e.generation in history && Genuine(history[e.generation], e.response) && !Removed(trace, e.generation, i)
    && (e.expected.Some? ==> e.expected.value == e.generation)
  }

  /** A payload that is sent, or about to be, is one that was built before. */
  ghost predicate BuiltAt(trace: seq<Entry>, generation: Id, response: Response, at: nat, n: nat) {
    at < n <= |trace| && trace[at].Built? && trace[at].generation == generation && trace[at].response == response
  }

  ghost predicate Traced(s: State) {
    && (forall i :: 0 <= i < |s.trace| && s.trace[i].Built? ==> WellBuilt(s.history, s.trace, i))
    && (forall i :: 0 <= i < |s.trace| && s.trace[i].Sent? ==>
          BuiltAt(s.trace, s.trace[i].generation, s.trace[i].response, s.trace[i].built, i))
    && (forall h :: h in s.hands ==>
          BuiltAt(s.trace, s.hands[h].generation, s.hands[h].response, s.hands[h].built, |s.trace|))
  }

  /** What was built is sent at most once, and in one hand at most until then. */
  ghost predicate SentOnce(s: State) {
    && (forall i, j :: 0 <= i < j < |s.trace| && s.trace[i].Sent? && s.trace[j].Sent? ==> s.trace[i].built != s.trace[j].built)
    && (forall h, i :: h in s.hands && 0 <= i < |s.trace| && s.trace[i].Sent? ==> s.hands[h].built != s.trace[i].built)
    && (forall g, h :: g in s.hands && h in s.hands && g != h ==> s.hands[g].built != s.hands[h].built)
  }

  ghost predicate Inv(s: State) {
    Tables(s) && Lives(s) && Traced(s) && SentOnce(s)
  }

  lemma PayloadIsGenuine(g: Generation, szx: nat, num: int, token: seq<byte>, kind: Kind, recovery: bool)
    requires Payload(g, szx, num, token, kind, recovery).Some?
    ensures Genuine(g, Payload(g, szx, num, token, kind, recovery).value)
  {
    var l := Layout(SzxSize(szx), |g.body|);
    OptionDecodesBack(BlockRef(szx, num, num < l.Count() - 1));
  }

  /** Every block of a stored body can be had, and nothing else. */
  lemma PayloadIsThere(g: Generation, szx: nat, num: int, token: seq<byte>, kind: Kind, recovery: bool)
    ensures Payload(g, szx, num, token, kind, recovery).Some? <==>
            && szx <= MAX_SZX
            && var count := Layout(SzxSize(szx), |g.body|).Count(); 0 <= num < count <= MAX_NUM + 1
  {
    if szx <= MAX_SZX {
      OptionDecodesBack(BlockRef(szx, num, num < Layout(SzxSize(szx), |g.body|).Count() - 1));
    }
  }

  lemma RemovedBefore(trace: seq<Entry>, trace': seq<Entry>, id: Id, n: nat)
    requires trace <= trace' && n <= |trace|
    ensures Removed(trace', id, n) <==> Removed(trace, id, n)
  {
    assert forall i :: 0 <= i < n ==> trace'[i] == trace[i];
  }

  lemma RemovedNext(trace: seq<Entry>, e: Entry, id: Id)
    ensures Removed(trace + [e], id, |trace| + 1) <==> Removed(trace, id, |trace|) || e == Gone(id)
  {
    RemovedBefore(trace, trace + [e], id, |trace|);
    assert (trace + [e])[|trace|] == e;
    if Removed(trace + [e], id, |trace| + 1) {
      var i :| 0 <= i < |trace| + 1 && (trace + [e])[i] == Gone(id);
      assert i < |trace| ==> trace[i] == Gone(id);
    }
  }

  /** What was recorded stays as good when more is recorded. */
  lemma MoreTraced(s: State, s': State)
    requires Traced(s) && s.trace <= s'.trace && s'.hands == s.hands
    requires forall id :: id in s.history ==> id in s'.history && s'.history[id] == s.history[id]
    requires forall i :: |s.trace| <= i < |s'.trace| ==> s'.trace[i].Gone?
    ensures Traced(s')
  {
    hide Genuine, Removed;
    forall i | 0 <= i < |s'.trace| && s'.trace[i].Built?
      ensures WellBuilt(s'.history, s'.trace, i)
    {
      assert s'.trace[i] == s.trace[i] && WellBuilt(s.history, s.trace, i);
      RemovedBefore(s.trace, s'.trace, s.trace[i].generation, i);
    }
    forall i | 0 <= i < |s'.trace| && s'.trace[i].Sent?
      ensures BuiltAt(s'.trace, s'.trace[i].generation, s'.trace[i].response, s'.trace[i].built, i)
    {
      assert s'.trace[i] == s.trace[i];
    }
  }

  lemma SameSentOnce(s: State, s': State)
    requires SentOnce(s) && s.trace <= s'.trace && s'.hands == s.hands
    requires forall i :: |s.trace| <= i < |s'.trace| ==> s'.trace[i].Gone?
    ensures SentOnce(s')
  {
    assert forall i :: 0 <= i < |s'.trace| && s'.trace[i].Sent? ==> i < |s.trace| && s'.trace[i] == s.trace[i];
  }

  lemma DropLives(s: State, key: Key)
    requires Tables(s) && Lives(s) && key in s.senders
    ensures Lives(Drop(s, key))
  {
    hide Removed;
    var s', gone := Drop(s, key), s.senders[key].id;
    forall id | id in s'.history
      ensures Current(s', id) <==> !Removed(s'.trace, id, |s'.trace|)
    {
      RemovedNext(s.trace, Gone(gone), id);
      if Current(s, id) && id != gone {
        var k :| k in s.senders && s.senders[k].id == id;
        assert k in s'.senders && s'.senders[k].id == id;
      }
    }
  }

  lemma DropKeeps(s: State, key: Key)
    requires Inv(s) && key in s.senders
    ensures Inv(Drop(s, key)) && Drop(s, key).history == s.history && s.trace <= Drop(s, key).trace
  {
    hide Traced, Lives, SentOnce;
    DropLives(s, key);
    MoreTraced(s, Drop(s, key));
    SameSentOnce(s, Drop(s, key));
  }

  lemma StoreKeeps(s: State, key: Key, etag: seq<byte>, code: nat, options: Extra, body: seq<byte>, expires: int)
    requires Inv(s)
    ensures var s' := Store(s, key, etag, code, options, body, expires); Inv(s') && s.trace <= s'.trace
  {
    hide Traced, Lives, SentOnce, Tables;
    var s1 := if key in s.senders then Drop(s, key) else s;
    if key in s.senders {
      DropKeeps(s, key);
    }
    FreshKeeps(s1, key, etag, code, options, body, expires);
  }

  lemma FreshKeeps(s: State, key: Key, etag: seq<byte>, code: nat, options: Extra, body: seq<byte>, expires: int)
    requires Inv(s) && key !in s.senders
    ensures Inv(Store(s, key, etag, code, options, body, expires))
  {
    hide Traced, SentOnce, Removed, Lives;
    var s' := Store(s, key, etag, code, options, body, expires);
    MoreTraced(s, s');
    SameSentOnce(s, s');
    FreshLives(s, s', key);
  }

  lemma FreshLives(s: State, s': State, key: Key)
    requires Lives(s) && s.nextId !in s.history && key !in s.senders && s'.trace == s.trace
    requires key in s'.senders && s'.senders == s.senders[key := s'.senders[key]] && s'.senders[key].id == s.nextId
    requires s'.history.Keys == s.history.Keys + {s.nextId}
    ensures Lives(s')
  {
    hide Removed;
    forall id | id in s'.history
      ensures Current(s', id) <==> !Removed(s'.trace, id, |s'.trace|)
    {
      if id == s.nextId {
        assert s'.senders[key].id == id;
        NeverRemoved(s, id);
      } else if Current(s, id) {
        var k :| k in s.senders && s.senders[k].id == id;
        assert s'.senders[k].id == id;
      }
    }
  }

  lemma NeverRemoved(s: State, id: Id)
    requires Lives(s) && id !in s.history
    ensures !Removed(s.trace, id, |s.trace|)
  {
  }

  /** A payload is built only while its generation is the one stored, and is that one's. */
  lemma TakenKeeps(s: State, hand: HandId, e: Entry)
    requires Inv(s) && hand !in s.hands && e.Built? && e.generation in s.history
    requires Genuine(s.history[e.generation], e.response) && Current(s, e.generation)
    requires e.expected.Some? ==> e.expected.value == e.generation
    ensures Inv(Taken(s, hand, e))
  {
    hide Genuine, Removed, Tables, SentOnce;
    var s' := Taken(s, hand, e);
    forall i | 0 <= i < |s'.trace| && s'.trace[i].Built?
      ensures WellBuilt(s'.history, s'.trace, i)
    {
      RemovedBefore(s.trace, s'.trace, s'.trace[i].generation, i);
      if i < |s.trace| {
        assert s'.trace[i] == s.trace[i] && WellBuilt(s.history, s.trace, i);
      }
    }
    forall i | 0 <= i < |s'.trace| && s'.trace[i].Sent?
      ensures BuiltAt(s'.trace, s'.trace[i].generation, s'.trace[i].response, s'.trace[i].built, i)
    {
      assert s'.trace[i] == s.trace[i];
    }
    SameLives(s, s', e);
    SameTables(s, s');
    TakenOnce(s, hand, e);
  }

  lemma SameTables(s: State, s': State)
    requires Tables(s) && s'.senders == s.senders && s'.history == s.history && s'.nextId == s.nextId && s'.jobs == s.jobs
    ensures Tables(s')
  {
  }

  lemma SameLives(s: State, s': State, e: Entry)
    requires Lives(s) && s'.senders == s.senders && s'.history == s.history && s'.trace == s.trace + [e] && !e.Gone?
    ensures Lives(s')
  {
    hide Removed;
    forall id | id in s'.history
      ensures Current(s', id) <==> !Removed(s'.trace, id, |s'.trace|)
    {
      RemovedNext(s.trace, e, id);
      assert Current(s', id) <==> Current(s, id);
    }
  }

  lemma TakenOnce(s: State, hand: HandId, e: Entry)
    requires SentOnce(s) && Traced(s) && hand !in s.hands && e.Built?
    ensures SentOnce(Taken(s, hand, e))
  {
    hide WellBuilt;
    var s' := Taken(s, hand, e);
    assert forall i :: 0 <= i < |s'.trace| && s'.trace[i].Sent? ==> i < |s.trace| && s'.trace[i] == s.trace[i];
    assert forall i :: 0 <= i < |s.trace| && s.trace[i].Sent? ==> s.trace[i].built < |s.trace|;
  }

  lemma BuildKeeps(s: State, hand: HandId, key: Key, szx: nat, num: int, token: seq<byte>, kind: Kind, recovery: bool,
                   expected: Option<Id>, now: int)
    requires Inv(s)
    ensures var s' := Build(s, hand, key, szx, num, token, kind, recovery, expected, now);
            && Inv(s') && s'.history == s.history && s.trace <= s'.trace
            && forall i :: |s.trace| <= i < |s'.trace| && s'.trace[i].Built? ==>
                 key in s.senders && s'.trace[i].generation == s.senders[key].id && s'.trace[i].expected == expected
  {
    hide Genuine, Lives, Traced, SentOnce, Payload;
    if hand !in s.hands && key in s.senders && (expected.None? || s.senders[key].id == expected.value) {
      DropKeeps(s, key);
      var g := s.senders[key];
      var r := Payload(g, szx, num, token, kind, recovery);
      if g.expires > now && r.Some? {
        PayloadIsGenuine(g, szx, num, token, kind, recovery);
        assert Current(s, g.id);
        TakenKeeps(s, hand, Built(g.id, expected, r.value));
      }
    }
  }

  /** Sending adds nothing that was not built, and nothing twice. */
  lemma OutKeeps(s: State, hand: HandId)
    requires Inv(s) && hand in s.hands
    ensures Inv(Out(s, hand))
  {
    hide Tables, Lives, Removed, Genuine, SentOnce;
    var s', held := Out(s, hand), s.hands[hand];
    var e := Sent(held.generation, held.response, held.built);
    SameTables(s, s');
    SameLives(s, s', e);
    OutOnce(s, hand);
    forall i | 0 <= i < |s'.trace| && s'.trace[i].Built?
      ensures WellBuilt(s'.history, s'.trace, i)
    {
      assert s'.trace[i] == s.trace[i] && WellBuilt(s.history, s.trace, i);
      RemovedBefore(s.trace, s'.trace, s.trace[i].generation, i);
    }
    forall i | 0 <= i < |s'.trace| && s'.trace[i].Sent?
      ensures BuiltAt(s'.trace, s'.trace[i].generation, s'.trace[i].response, s'.trace[i].built, i)
    {
      if i < |s.trace| {
        assert s'.trace[i] == s.trace[i];
      }
    }
  }

  lemma OutOnce(s: State, hand: HandId)
    requires SentOnce(s) && hand in s.hands
    ensures SentOnce(Out(s, hand))
  {
    var s' := Out(s, hand);
    assert forall i :: 0 <= i < |s.trace| ==> s'.trace[i] == s.trace[i];
  }

  lemma DiscardKeeps(s: State, hand: HandId)
    requires Inv(s)
    ensures Inv(s.(hands := s.hands - {hand}))
  {
    hide Genuine, Removed;
    var s' := s.(hands := s.hands - {hand});
    forall i | 0 <= i < |s'.trace| && s'.trace[i].Built?
      ensures WellBuilt(s'.history, s'.trace, i)
    {
      assert WellBuilt(s.history, s.trace, i);
    }
    assert forall id :: Current(s', id) <==> Current(s, id);
  }

  lemma PlanKeeps(s: State, s': State)
    requires Lives(s) && Traced(s) && SentOnce(s) && s' == s.(jobs := s'.jobs)
    ensures Lives(s') && Traced(s') && SentOnce(s')
  {
    hide Genuine, Removed;
    MoreTraced(s, s');
    assert forall id :: Current(s', id) <==> Current(s, id);
  }

  /** Every step keeps the invariant, and what a job builds belongs to the generation it was
      scheduled for. */
  lemma StepKeepsInv(s: State, step: Step)
    requires Inv(s)
    ensures var s' := Apply(s, step);
            && Inv(s') && s.trace <= s'.trace
            && (step.BuildFor? ==> forall i :: |s.trace| <= i < |s'.trace| && s'.trace[i].Built? ==>
                  step.job in s.jobs && s'.trace[i].generation == s.jobs[step.job].generation)
  {
    hide Lives, Traced, SentOnce, Store, Drop, Build, Out;
    match step
    case Cache(key, etag, code, options, body, expires) => StoreKeeps(s, key, etag, code, options, body, expires);
    case Remove(key) =>
      if key in s.senders {
        DropKeeps(s, key);
      }
    case Plan(job, key, szx, token, kind, recovery, expected) => PlanKeeps(s, Apply(s, step));
    case BuildFor(job, hand, num, now) =>
      if job in s.jobs {
        var j := s.jobs[job];
        BuildKeeps(s, hand, j.key, j.szx, num, j.token, j.kind, j.recovery, Some(j.generation), now);
        JobsOnly(s, hand, j, num, now);
      }
    case Answer(hand, key, szx, num, token, kind, recovery, now) =>
      BuildKeeps(s, hand, key, szx, num, token, kind, recovery, None, now);
    case Transmit(hand) =>
      if hand in s.hands {
        OutKeeps(s, hand);
        OutTraces(s, hand);
      }
    case Discard(hand) => DiscardKeeps(s, hand);
  }

  lemma OutTraces(s: State, hand: HandId)
    requires hand in s.hands
    ensures s.trace <= Out(s, hand).trace
  {
  }

  lemma JobsOnly(s: State, hand: HandId, j: JobRef, num: int, now: int)
    requires Inv(s)
    ensures var s' := Build(s, hand, j.key, j.szx, num, j.token, j.kind, j.recovery, Some(j.generation), now);
            forall i :: |s.trace| <= i < |s'.trace| && s'.trace[i].Built? ==> s'.trace[i].generation == j.generation
  {
    hide Lives, Traced, SentOnce, Payload;
  }

  lemma {:induction false} RunKeepsInv(steps: seq<Step>)
    ensures Inv(Run(steps))
    decreases |steps|
  {
    hide Apply, Inv;
    if steps == [] {
      StartKeeps();
    } else {
      RunKeepsInv(steps[..|steps| - 1]);
      StepKeepsInv(Run(steps[..|steps| - 1]), steps[|steps| - 1]);
    }
  }

  lemma StartKeeps()
    ensures Inv(START)
  {
  }

  // ---------------------------------------------------------------- what is sent, and when

  /** In every run, everything sent is a block of the generation it was built from, the one its
      builder wanted; nothing is built once that generation has been replaced, removed or expired;
      what is sent after that was built before it; and nothing built is sent twice. */
  lemma SentIsGenuine(steps: seq<Step>, i: nat)
    requires i < |Run(steps).trace| && Run(steps).trace[i].Sent?
    ensures var s := Run(steps);
            var e := s.trace[i];
            && e.generation in s.history && Genuine(s.history[e.generation], e.response)
            && e.built < i && s.trace[e.built].Built? && s.trace[e.built].response == e.response
            && s.trace[e.built].generation == e.generation
            && (s.trace[e.built].expected.Some? ==> s.trace[e.built].expected.value == e.generation)
            && (forall g :: 0 <= g < i && s.trace[g] == Gone(e.generation) ==> e.built < g)
            && (forall k :: 0 <= k < |s.trace| && k != i && s.trace[k].Sent? ==> s.trace[k].built != e.built)
  {
    hide Run, Genuine;
    RunKeepsInv(steps);
    var s := Run(steps);
    assert WellBuilt(s.history, s.trace, s.trace[i].built);
  }

  /** A payload is sent although its generation is gone. */
  ghost predicate Late(s: State) {
    exists i :: 0 <= i < |s.trace| && s.trace[i].Sent? && Removed(s.trace, s.trace[i].generation, i)
  }

  /** A payload is about to be sent although its generation is gone. */
  ghost predicate SendsLate(s: State, step: Step) {
    step.Transmit? && step.hand in s.hands && !Current(s, s.hands[step.hand].generation)
  }

  lemma LateNext(s: State, s': State)
    requires s.trace <= s'.trace
    ensures Late(s') <==> Late(s) || exists i :: |s.trace| <= i < |s'.trace| && s'.trace[i].Sent? && Removed(s'.trace, s'.trace[i].generation, i)
  {
    hide Removed;
    if Late(s) {
      var i :| 0 <= i < |s.trace| && s.trace[i].Sent? && Removed(s.trace, s.trace[i].generation, i);
      RemovedBefore(s.trace, s'.trace, s.trace[i].generation, i);
      assert s'.trace[i] == s.trace[i];
    }
    if Late(s') {
      var i :| 0 <= i < |s'.trace| && s'.trace[i].Sent? && Removed(s'.trace, s'.trace[i].generation, i);
      if i < |s.trace| {
        assert s'.trace[i] == s.trace[i];
        RemovedBefore(s.trace, s'.trace, s.trace[i].generation, i);
      }
    }
  }

  lemma StepLate(s: State, step: Step)
    requires Inv(s)
    ensures Late(Apply(s, step)) <==> Late(s) || SendsLate(s, step)
  {
    hide Removed, Payload, Genuine, Tables, SentOnce, WellBuilt;
    var s' := Apply(s, step);
    StepKeepsInv(s, step);
    LateNext(s, s');
    if step.Transmit? && step.hand in s.hands {
      var held := s.hands[step.hand];
      assert WellBuilt(s.history, s.trace, held.built);
      KnownWhenBuilt(s, held.built);
      RemovedBefore(s.trace, s'.trace, held.generation, |s.trace|);
      assert s'.trace[|s.trace|] == Sent(held.generation, held.response, held.built);
    }
  }

  lemma KnownWhenBuilt(s: State, i: nat)
    requires i < |s.trace| && s.trace[i].Built? && WellBuilt(s.history, s.trace, i)
    ensures s.trace[i].generation in s.history
  {
  }

  ghost predicate LateAt(steps: seq<Step>, i: nat)
    requires i < |steps|
  {
    SendsLate(Run(steps[..i]), steps[i])
  }

  lemma LateBefore(steps: seq<Step>, i: nat)
    requires i < |steps| - 1
    ensures LateAt(steps[..|steps| - 1], i) <==> LateAt(steps, i)
  {
    hide SendsLate, Run;
    assert steps[..|steps| - 1][..i] == steps[..i];
  }

  /** No payload leaves after its generation has been replaced, removed or expired if and only if
      every one that is sent is still current when it is; the code looks only when it builds. */
  lemma {:induction false} NoneIsLateIff(steps: seq<Step>)
    ensures !Late(Run(steps)) <==> forall i :: 0 <= i < |steps| ==> !LateAt(steps, i)
    decreases |steps|
  {
    hide Apply, Late, SendsLate, Inv, LateAt;
    if steps == [] {
      StartIsNotLate();
    } else {
      var init, n := steps[..|steps| - 1], |steps| - 1;
      NoneIsLateIff(init);
      RunKeepsInv(init);
      StepLate(Run(init), steps[n]);
      LateAtEnd(steps);
      forall i | 0 <= i < n
        ensures LateAt(init, i) <==> LateAt(steps, i)
      {
        LateBefore(steps, i);
      }
      if Late(Run(init)) {
        var i :| 0 <= i < n && LateAt(init, i);
        assert LateAt(steps, i);
      }
    }
  }

  lemma LateAtEnd(steps: seq<Step>)
    requires steps != []
    ensures LateAt(steps, |steps| - 1) <==> SendsLate(Run(steps[..|steps| - 1]), steps[|steps| - 1])
  {
    hide SendsLate, Run;
  }

  lemma StartIsNotLate()
    ensures !Late(START)
  {
  }

  /** Whatever replaces the body a held payload is from makes that payload late. */
  lemma ReplacedInHand(s: State, hand: HandId, key: Key, etag: seq<byte>, code: nat, options: Extra, body: seq<byte>, expires: int)
    requires Inv(s) && hand in s.hands && key in s.senders && s.senders[key].id == s.hands[hand].generation
    ensures SendsLate(Store(s, key, etag, code, options, body, expires), Transmit(hand))
  {
    hide Lives, Traced, SentOnce;
  }

  /** It does happen, for every body and whatever replaces it: the body is stored, a job builds its
      first block, the body is replaced, and then the block is sent. */
  lemma SendsCanBeLate(body: seq<byte>, other: seq<byte>, szx: nat) returns (steps: seq<Step>)
    requires szx <= MAX_SZX && Layout(SzxSize(szx), |body|).Count() <= MAX_NUM + 1
    ensures |steps| == 5 && steps[2].BuildFor? && steps[3].Cache? && steps[3].body == other && steps[4].Transmit?
    ensures Late(Run(steps))
  {
    hide Late, SendsLate, Store, Payload, Inv, Run;
    var none, g := Extra([], []), Generation(0, [1], CREATED, Extra([], []), body, 10);
    steps := [Cache(0, [1], CREATED, none, body, 10), Plan(0, 0, szx, [], NonConfirmable, false, None), BuildFor(0, 0, 0, 5),
              Cache(0, [2], CREATED, none, other, 10), Transmit(0)];
    StoredFirst(body, none);
    RunStep(steps, 0);
    RunStep(steps, 1);
    RunStep(steps, 2);
    PayloadIsThere(g, szx, 0, [], NonConfirmable, false);
    var s := Run(steps[..3]);
    assert 0 in s.hands && s.hands[0].generation == 0 && 0 in s.senders && s.senders[0].id == 0;
    RunKeepsInv(steps[..3]);
    ReplacedInHand(s, 0, 0, [2], CREATED, none, other, 10);
    RunStep(steps, 3);
    assert LateAt(steps, 4);
    NoneIsLateIff(steps);
  }

  lemma StoredFirst(body: seq<byte>, options: Extra)
    ensures var s := Store(START, 0, [1], CREATED, options, body, 10);
            && s.senders == map[0 := Generation(0, [1], CREATED, options, body, 10)] && s.hands == map[] && s.jobs == map[]
    ensures Run([]) == START
  {
  }

  lemma RunStep(steps: seq<Step>, i: nat)
    requires i < |steps|
    ensures Run(steps[..i + 1]) == Apply(Run(steps[..i]), steps[i])
  {
    assert steps[..i + 1][..i] == steps[..i];
  }

  // ---------------------------------------------------------------- both ends

  /** The network: whatever arrives was sent, late or not, in any order, any number of times. */
  ghost predicate FromRun(s: State, events: seq<Event>) {
    forall i :: 0 <= i < |events| && events[i].Arrives? ==>
      exists k :: 0 <= k < |s.trace| && s.trace[k].Sent? && s.trace[k].response == events[i].response
  }

  /** Entity tags do their work: equal tag, size and code mean equal bodies. */
  ghost predicate Labelled(s: State) {
    forall g, h :: g in s.history && h in s.history && s.history[g].etag == s.history[h].etag
                   && |s.history[g].body| == |s.history[h].body| && s.history[g].code == s.history[h].code ==>
                   s.history[g].body == s.history[h].body
  }

  lemma GenuineIdentity(g: Generation, r: Response, id: Identity)
    requires Genuine(g, r) && IdentityOf(r) == Some(id)
    ensures id.szx <= MAX_SZX && id.etag == g.etag && id.code == g.code && id.size == |g.body|
    ensures r.payload == Some(id.Shape().Block(g.body, BlockOf(r).value.num))
  {
  }

  /** End to end: over every run of the server, with bodies replaced at any moment and payloads of
      the old ones still on their way, and every behaviour of the network, a body the client's receiver finishes is, byte for byte, one
      the server stored, under the tag and code the client sees. */
  lemma ServedBodyIsReceived(steps: seq<Step>, events: seq<Event>, used: nat, id: Identity, b: Blocks) returns (g: Id)
    requires FromRun(Run(steps), events) && Labelled(Run(steps))
    requires 0 < used <= |events| && events[used - 1].Arrives? && IdentityOf(events[used - 1].response) == Some(id)
    requires id.szx <= MAX_SZX && Stored(id.Shape(), b) && AllStored(id.Shape(), b) && Gathered(events, used, id, b)
    ensures g in Run(steps).history && Run(steps).history[g].etag == id.etag && Run(steps).history[g].code == id.code
    ensures Content(id.Shape(), b) == Run(steps).history[g].body
  {
    hide Run, Genuine, Gathered, IdentityOf, Content;
    var s := Run(steps);
    RunKeepsInv(steps);
    g := SentBy(s, events, used - 1, id);
    forall i | 0 <= i < |events| && events[i].Arrives? && IdentityOf(events[i].response) == Some(id)
      ensures BlockOf(events[i].response).Some? && 0 <= BlockOf(events[i].response).value.num < id.Shape().Count()
      ensures events[i].response.payload == Some(id.Shape().Block(s.history[g].body, BlockOf(events[i].response).value.num))
    {
      var h := SentBy(s, events, i, id);
      assert s.history[h].body == s.history[g].body;
    }
    OneRepresentation(events, used, id, b, s.history[g].body);
  }

  lemma SentBy(s: State, events: seq<Event>, i: nat, id: Identity) returns (g: Id)
    requires Inv(s) && FromRun(s, events) && i < |events| && events[i].Arrives?
    requires IdentityOf(events[i].response) == Some(id)
    ensures g in s.history && id.szx <= MAX_SZX && s.history[g].etag == id.etag && s.history[g].code == id.code
    ensures |s.history[g].body| == id.size && BlockOf(events[i].response).Some?
    ensures 0 <= BlockOf(events[i].response).value.num < id.Shape().Count()
    ensures events[i].response.payload == Some(id.Shape().Block(s.history[g].body, BlockOf(events[i].response).value.num))
  {
    var k :| 0 <= k < |s.trace| && s.trace[k].Sent? && s.trace[k].response == events[i].response;
    g := s.trace[k].generation;
    assert WellBuilt(s.history, s.trace, s.trace[k].built);
    GenuineIdentity(s.history[g], events[i].response, id);
  }
}
