/** A whole Q-Block2 exchange with nothing in its way: the server's chain of jobs sends the body, the
    client's receiver puts it together. */
module Fetch {
  import opened Base
  import opened Transfer
  import opened Delivery
  import opened QCodec
  import opened BodyReceiver
  import opened Generations
  import Config
  import Schedule

  /** A body the engine stores: with a tag, and within its size limits. */
  predicate Storable(g: Generation, szx: nat)
    requires szx <= MAX_SZX
  {
    1 <= |g.etag| <= 8 && |g.body| <= MAX_BODY && Layout(SzxSize(szx), |g.body|).Count() <= MAX_TRACKED
  }

  function IdOf(g: Generation, szx: nat): Identity {
    Identity(g.etag, |g.body|, g.code, szx)
  }

  /** The payload of one block is well-formed, of the body's identity, and carries that NUM. */
  lemma PayloadIsWellFormed(g: Generation, szx: nat, num: int, token: seq<byte>, kind: Kind)
    requires szx <= MAX_SZX && Storable(g, szx) && kind != Reset
    requires 0 <= num < Layout(SzxSize(szx), |g.body|).Count()
    ensures var p := Payload(g, szx, num, token, kind, false);
            && p.Some? && WellFormed(p.value, szx) && IdentityOf(p.value) == Some(IdOf(g, szx))
            && BlockOf(p.value) == Some(BlockRef(szx, num, num < Layout(SzxSize(szx), |g.body|).Count() - 1))
            && p.value.kind == kind && p.value.payload == Some(Layout(SzxSize(szx), |g.body|).Block(g.body, num))
  {
    hide Layout.Block;
    PayloadIsThere(g, szx, num, token, kind, false);
    OptionDecodesBack(BlockRef(szx, num, num < Layout(SzxSize(szx), |g.body|).Count() - 1));
  }

  /** One event per NUM, each carrying that block. */
  ghost predicate IsBurst(g: Generation, szx: nat, kind: Kind, nums: seq<int>, events: seq<Event>)
    requires szx <= MAX_SZX
  {
    && |events| == |nums|
    && forall i :: 0 <= i < |nums| ==>
         && events[i].Arrives? && events[i].granted && events[i].delivered
         && WellFormed(events[i].response, szx) && IdentityOf(events[i].response) == Some(IdOf(g, szx))
         && BlockOf(events[i].response).value.num == nums[i] && events[i].response.kind == kind
         && 0 <= nums[i] < Layout(SzxSize(szx), |g.body|).Count()
         && events[i].response.payload == Some(Layout(SzxSize(szx), |g.body|).Block(g.body, nums[i]))
  }

  method Burst(g: Generation, szx: nat, token: seq<byte>, kind: Kind, nums: seq<int>, now: int) returns (events: seq<Event>)
    requires szx <= MAX_SZX && Storable(g, szx) && kind != Reset
    requires forall i :: 0 <= i < |nums| ==> 0 <= nums[i] < Layout(SzxSize(szx), |g.body|).Count()
    ensures IsBurst(g, szx, kind, nums, events)
  {
    hide Payload, WellFormed, IdentityOf, BlockOf, Layout.Block, Layout.Count, Storable;
    events := [];
    for i := 0 to |nums|
      invariant IsBurst(g, szx, kind, nums[..i], events)
    {
      PayloadIsWellFormed(g, szx, nums[i], token, kind);
      events := events + [Arrives(Payload(g, szx, nums[i], token, kind, false).value, now, true, true)];
    }
    assert nums[..|nums|] == nums;
  }

  lemma BurstIsSmooth(g: Generation, szx: nat, kind: Kind, nums: seq<int>, events: seq<Event>)
    requires szx <= MAX_SZX && IsBurst(g, szx, kind, nums, events)
    ensures Smooth(events, szx, IdOf(g, szx), Class(kind)) && Names(events, IdOf(g, szx), g.body)
    ensures forall i :: 0 <= i < |nums| ==> Came(events, |events|, nums[i])
  {
    hide WellFormed, IdentityOf, Layout.Block, Layout.Count;
    forall i | 0 <= i < |nums|
      ensures Came(events, |events|, nums[i])
    {
      BlockOfWellFormed(events[i].response, szx);
    }
  }

  lemma BlockOfWellFormed(r: Response, szx: nat)
    requires WellFormed(r, szx)
    ensures BlockOf(r).Some?
  {
  }

  lemma WholeGoal(first: seq<int>, last: int, count: int)
    requires first == Schedule.Range(0, last + 1) && 0 <= last < count
    ensures first != [] && first[0] == 0 && forall i :: 0 <= i < |first| ==> 0 <= first[i] < count
    ensures Schedule.Goal(first, true, count) == Schedule.Range(0, count) && |Schedule.Range(0, count)| == count
    ensures forall i :: 0 <= i < count ==> Schedule.Range(0, count)[i] == i
  {
    hide Schedule.Range;
  }

  lemma NoneIsMissing(count: nat, events: seq<Event>, id: Identity)
    requires id.szx <= MAX_SZX && count == id.Shape().Count()
    requires forall i :: 0 <= i < count ==> Came(events, |events|, i)
    ensures !SomeNeverCame(events, id)
  {
    hide Came;
  }

  /** Q-Block2 completion: a whole-body request that nothing disturbs gets the stored body, for every
      body, block size, payload-set size and type. */
  method FetchBody(config: Config.Params, g: Generation, szx: nat, token: seq<byte>, kind: Kind, async: bool, now: int)
    returns (outcome: Outcome)
    requires Config.Resolved(config) && 0 < config.maxPayloads && szx <= MAX_SZX && Storable(g, szx) && kind != Reset
    ensures outcome.Finished? && outcome.id == IdOf(g, szx)
    ensures Stored(outcome.id.Shape(), outcome.blocks) && AllStored(outcome.id.Shape(), outcome.blocks)
    ensures Content(outcome.id.Shape(), outcome.blocks) == g.body
  {
    hide Layout.Count, WellFormed, IdentityOf, Came, Smooth, Names, Storable, Stored, AllStored, Content, Schedule.Range,
         Schedule.Goal, SetLast, IsBurst, Gathered, Config.Resolved;
    var count := Layout(SzxSize(szx), |g.body|).Count();
    var last := SetLast(config.maxPayloads, 0, count);
    Schedule.SetLastBounds(config.maxPayloads, 0, count);
    var first := Schedule.Range(0, last + 1);
    WholeGoal(first, last, count);
    var turns := seq(count, i => Schedule.Turn(_ => Schedule.Clear, true));
    var sent, _, after := Schedule.Respond(first, count, true, Class(kind) == Confirmable, async, config.maxPayloads, turns);
    assert sent == Schedule.Range(0, count);
    var events := Burst(g, szx, token, kind, sent, now);
    BurstIsSmooth(g, szx, kind, sent, events);
    ghost var id := IdOf(g, szx);
    forall i | 0 <= i < count
      ensures Came(events, |events|, i)
    {
      assert sent[i] == i;
    }
    NoneIsMissing(count, events, id);
    var used, asks;
    outcome, used, asks := ReceiveBody(config, None, token, kind, szx, true, false, true, events, id, Class(kind));
    FinishedAsSent(g, szx, events, Class(kind), used);
    OneRepresentation(events, used, id, outcome.blocks, g.body);
  }

  lemma FinishedAsSent(g: Generation, szx: nat, events: seq<Event>, kind: Kind, used: nat)
    requires Smooth(events, szx, IdOf(g, szx), kind) && 0 < used <= |events|
    ensures events[used - 1].Arrives? && IdentityOf(events[used - 1].response) == Some(IdOf(g, szx))
  {
  }
}
