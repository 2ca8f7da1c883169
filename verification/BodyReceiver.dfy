/** The client's Q-Block2 receiver: responses of several representations may interleave, a
    notification may replace the body midway, and late blocks of the old one keep arriving. */
module BodyReceiver {
  import opened Base
  import opened Transfer
  import opened Delivery
  import opened QCodec
  import opened Recovery
  import Config

  const MAX_BODY: int := 0x100_0000
  const MAX_TRACKED: int := 65536
  const CREATED: nat := 65
  const BAD_REQUEST: nat := 128
  const BAD_OPTION: nat := 130
  const SEQUENCE_TIMEOUT: int := 128 * Config.SECOND

  datatype Kind = Confirmable | NonConfirmable | Acknowledgement | Reset

  /** A response as the receiver looks at it. A repeatable option is the list of its values,
      `None` standing for one that is not a 32-bit number; so is a payload that cannot be read. */
  datatype Response = Response(
    kind: Kind, code: nat, token: seq<byte>, otherBlock: bool,
    qBlock2: seq<Option<nat>>, size2: seq<Option<nat>>, etag: seq<seq<byte>>,
    observe: seq<Option<nat>>, maxAge: seq<Option<nat>>, payload: Option<seq<byte>>)

  function First<T>(values: seq<Option<T>>): Option<T> {
    if values == [] then None else values[0]
  }

  function BlockOf(r: Response): Option<BlockRef> {
    match First(r.qBlock2)
    case None => None
    case Some(v) => if DecodeOption(v).Ok? then Some(DecodeOption(v).value) else None
  }

  /** What makes two blocks parts of one representation. */
  datatype Identity = Identity(etag: seq<byte>, size: nat, code: nat, szx: nat) {
    function Shape(): Layout {
      Layout(SzxSize(szx), size)
    }
  }

  function SizeAndTag(r: Response): Option<(nat, seq<byte>)> {
    if First(r.size2).None? || r.etag == [] || |r.etag[0]| == 0 || |r.etag[0]| > 8 then None
    else Some((First(r.size2).value, r.etag[0]))
  }

  function IdentityOf(r: Response): Option<Identity> {
    if BlockOf(r).None? || SizeAndTag(r).None? then None
    else Some(Identity(SizeAndTag(r).value.1, SizeAndTag(r).value.0, r.code, BlockOf(r).value.szx))
  }

  predicate ValidResponse(r: Response) {
    !r.otherBlock && |r.qBlock2| == 1 && |r.size2| == 1 && |r.etag| == 1
  }

  /** Section 3.4 of RFC 7641: a notification is newer than the last one. */
  predicate NewerSequence(old_: nat, new_: nat, last: int, now: int) {
    || (old_ < new_ && new_ - old_ < 0x80_0000)
    || (old_ > new_ && old_ - new_ > 0x80_0000)
    || now - last > SEQUENCE_TIMEOUT
  }

  /** A response brings block `num` of the representation `id`. */
  predicate Carries(r: Response, id: Identity, num: int, payload: seq<byte>) {
    IdentityOf(r) == Some(id) && BlockOf(r).value.num == num && r.payload == Some(payload)
  }

  /** Every block held came in a response of this one representation. */
  ghost predicate HeldFrom(seen: set<Response>, id: Identity, b: Blocks) {
    forall n :: n in b ==> exists r :: r in seen && Carries(r, id, n, b[n])
  }

  datatype Error =
    Unsupported | InvalidBlock2 | Conflict | TooLargeBody | IncompleteBody | Exhausted | ContextDone | Canceled |
    Transport | Unencodable | Unreadable | Unfit(cause: QError)

  /** A request the receiver sends: for some blocks, or for everything from a block on. */
  datatype Ask = Ask(nums: seq<int>, more: bool)

  /** Only what is missing is asked for: everything from the first gap on, which then starts a
      payload set, or all the gaps of the first incomplete set. */
  ghost predicate Proper(maxPayloads: int, l: Layout, b: Blocks, ask: Ask)
    requires 0 < maxPayloads && l.Valid()
  {
    exists first :: IsCursor(l, b, first) && first < l.Count()
      && if ask.more then ask.nums == [first] && first % maxPayloads == 0
         else ask.nums == FirstGapSet(l, b, first, maxPayloads) && first in ask.nums
  }

  /** A block nothing is wrong with: one of each option, a payload of the right length. */
  predicate WellFormed(r: Response, maxSzx: nat) {
    && ValidResponse(r) && IdentityOf(r).Some? && r.kind != Reset && r.payload.Some?
    && var id := IdentityOf(r).value;
       && id.szx <= maxSzx && id.szx <= MAX_SZX && id.size <= MAX_BODY && id.Shape().Count() <= MAX_TRACKED
       && id.Shape().Fits(BlockOf(r).value.num, BlockOf(r).value.more, r.payload.value)
  }

  /** An ask stays within one payload set and within the range of NUM. */
  ghost predicate OneSet(a: Ask, maxPayloads: int)
    requires 0 < maxPayloads
  {
    && a.nums != []
    && forall i :: 0 <= i < |a.nums| ==> 0 <= a.nums[i] <= MAX_NUM && a.nums[i] / maxPayloads == a.nums[0] / maxPayloads
  }

  lemma ContinueIsProper(maxPayloads: int, l: Layout, b: Blocks, first: int)
    requires 0 < maxPayloads && l.Valid() && IsCursor(l, b, first) && !AllStored(l, b) && l.Count() <= MAX_NUM + 1
    requires first % maxPayloads == 0
    ensures first < l.Count() && OneSet(Ask([first], true), maxPayloads) && Proper(maxPayloads, l, b, Ask([first], true))
  {
    assert first < l.Count() && IsCursor(l, b, first);
  }

  lemma InRange(a: Ask, maxPayloads: int)
    requires 0 < maxPayloads && OneSet(a, maxPayloads)
    ensures forall i :: 0 <= i < |a.nums| ==> 0 <= a.nums[i] <= MAX_NUM
  {
  }

  lemma FirstAskIsOneSet(maxPayloads: int)
    requires 0 < maxPayloads
    ensures OneSet(Ask([0], true), maxPayloads)
  {
  }

  /** The gaps the receiver asks for, cut to one payload set, are all the gaps of that set. */
  lemma MissingIsProper(maxPayloads: int, l: Layout, b: Blocks, first: int)
    requires l.Valid() && Stored(l, b) && l.Count() <= MAX_NUM + 1 && 0 < maxPayloads
    requires IsCursor(l, b, first) && !AllStored(l, b)
    ensures var a := Ask(SameSet(FirstGapSet(l, b, first, maxPayloads), maxPayloads), false);
            OneSet(a, maxPayloads) && Proper(maxPayloads, l, b, a)
  {
    hide FirstGapSet, SameSet, Walk, EncodeAll;
    RequestSurvivesTheWire(l, b, first, maxPayloads);
    var gaps := FirstGapSet(l, b, first, maxPayloads);
    SameSetStaysInOneSet(gaps, maxPayloads);
    assert forall i :: 0 <= i < |gaps| ==> gaps[i] in gaps;
    assert first < l.Count() && IsCursor(l, b, first);
  }

  function Class(k: Kind): Kind {
    if k == Acknowledgement then Confirmable else k
  }

  /** What the exchange brings: a response, or a receive that failed. */
  datatype Event =
    | Arrives(response: Response, now: int, granted: bool, delivered: bool)
    | Fails(contextDone: bool, canceled: bool, now: int, delivered: bool)

  /** An exchange without mishaps: well-formed blocks of one representation, of one type. */
  ghost predicate Smooth(events: seq<Event>, szx: nat, id: Identity, kind: Kind) {
    forall i :: 0 <= i < |events| ==>
      && events[i].Arrives? && events[i].granted && events[i].delivered && WellFormed(events[i].response, szx)
      && IdentityOf(events[i].response) == Some(id) && Class(events[i].response.kind) == kind
  }

  /** A final answer to the registration itself, starting a body of its own. */
  predicate FinalAnswer(registration: Option<nat>, token: seq<byte>, r: Response) {
    && registration == Some(0) && r.observe == [] && r.token == token && r.code >= CREATED
    && (r.qBlock2 == [] || (BlockOf(r).Some? && BlockOf(r).value.num == 0))
  }

  ghost predicate FinalCame(registration: Option<nat>, token: seq<byte>, events: seq<Event>, n: nat)
    requires n <= |events|
  {
    exists i :: 0 <= i < n && events[i].Arrives? && FinalAnswer(registration, token, events[i].response)
  }

  /** No notification comes where the receiver passes over them: for a request that ends an
      observation, or behind the final answer to a registration. */
  ghost predicate Undisturbed(registration: Option<nat>, token: seq<byte>, events: seq<Event>) {
    forall i :: 0 <= i < |events| && events[i].Arrives? && events[i].response.observe != [] ==>
      registration != Some(1) && !FinalCame(registration, token, events, i)
  }

  /** Block `num` came in one of the first `n` events. */
  ghost predicate Came(events: seq<Event>, n: nat, num: int)
    requires n <= |events|
  {
    exists i :: 0 <= i < n && events[i].Arrives? && BlockOf(events[i].response).Some?
                && BlockOf(events[i].response).value.num == num
  }

  datatype Outcome =
    | Waiting                                                                   // the events ended first
    | Finished(message: Response, observe: seq<Option<nat>>, id: Identity, blocks: Blocks)
    | Unblocked(message: Response)                                              // an answer without blocks
    | Failed(error: Error)

  /** A response without the option ends the exchange: as its result, or as an error. */
  function Plain(terminal: bool, fresh_: bool, r: Response): Outcome {
    if terminal || (r.code >= BAD_REQUEST && r.code != BAD_OPTION) then Unblocked(r)
    else if fresh_ then Failed(Unsupported)
    else Failed(InvalidBlock2)
  }

  class Receiver {
    const config: Config.Params
    const registration: Option<nat>   // Observe option of the request
    const token: seq<byte>
    const maxSzx: nat
    var mode: Kind                    // type of the request, follows the responses
    var szx: nat
    var assembly: Assembly?
    var etag: seq<byte>
    var code: nat
    var continued: int
    var partialExpires: Option<int>
    var retries: int
    var requestedSet: int
    var retainedBytes: int
    var observeSequence: nat
    var observePresent: bool
    var observeTime: int
    var bodyType: Option<Kind>
    var terminal: bool
    var asks: seq<Ask>
    ghost var seen: set<Response>

    ghost function Current(): Identity
      reads this
      requires assembly != null && 0 <= assembly.bodySize
    {
      Identity(etag, assembly.bodySize, code, szx)
    }

    ghost predicate Valid()
      reads this, assembly
    {
      && Config.Resolved(config) && 0 < config.maxPayloads && 0 <= retries <= config.nonMaxRetransmit
      && szx <= maxSzx <= MAX_SZX
      && (assembly == null ==> retainedBytes == 0)
      && (assembly != null ==>
            && assembly.Valid() && assembly.szx == szx && assembly.Shape().Count() <= MAX_TRACKED
            && retainedBytes == assembly.receivedSize
            && HeldFrom(seen, Current(), assembly.blocks))
    }

    /** Still waiting for a block. */
    ghost predicate Open()
      reads this, assembly
      requires Valid()
    {
      assembly != null ==> !AllStored(assembly.Shape(), assembly.blocks)
    }

    constructor (config: Config.Params, registration: Option<nat>, token: seq<byte>, mode: Kind, szx: nat)
      requires Config.Resolved(config) && szx <= MAX_SZX
      ensures Valid() && Open() && assembly == null && seen == {} && asks == [] && retries == 0 && maxSzx == szx
      ensures this.config == config && this.registration == registration && this.token == token && !terminal && bodyType.None?
    {
      this.config, this.registration, this.token, this.mode := config, registration, token, mode;
      this.szx, this.maxSzx := szx, szx;
      assembly, etag, code, continued, partialExpires := null, [], 0, 0, None;
      retries, requestedSet, retainedBytes := 0, -1, 0;
      observeSequence, observePresent, observeTime, bodyType, terminal := 0, false, 0, None, false;
      asks, seen := [], {};
      new;
      Config.ResolveIsExact(config);
    }

    ghost method See(r: Response)
      requires Valid() && Open()
      modifies this`seen
      ensures Valid() && Open() && seen == old(seen) + {r}
    {
      hide Config.Resolved, HeldFrom, Layout.Count, SumTo, Stored, AllStored;
      if assembly != null {
        HeldFromMore(seen, seen + {r}, Current(), assembly.blocks);
      }
      seen := seen + {r};
    }

    /** Sends a request unless a NUM has no encoding or the exchange fails. */
    method Send(nums: seq<int>, more: bool, delivered: bool) returns (err: Option<Error>)
      modifies this`asks
      ensures asks == if err.None? then old(asks) + [Ask(nums, more)] else old(asks)
      ensures (szx <= MAX_SZX && forall i :: 0 <= i < |nums| ==> 0 <= nums[i] <= MAX_NUM) ==>
              err == if delivered then None else Some(Transport)
    {
      for i := 0 to |nums| {
        if EncodeOption(BlockRef(szx, nums[i], more)).Err? {
          return Some(Unencodable);
        }
      }
      if !delivered {
        return Some(Transport);
      }
      asks := asks + [Ask(nums, more)];
      return None;
    }

    /** The request that opens the exchange. */
    method Begin(delivered: bool) returns (err: Option<Error>)
      requires Valid() && Open() && asks == [] && assembly == null && !terminal && bodyType.None?
      modifies this`asks
      ensures Valid() && Open()
      ensures err == if delivered then None else Some(Transport)
      ensures err.None? ==> asks == [Ask([0], true)]
    {
      err := Send([0], true, delivered);
    }

    /** When to stop waiting for the next response. */
    function Deadline(now: int): (deadline: int)
      requires Valid()
      reads this, assembly
      ensures Config.Fits(Config.Shifted(config.nonReceiveTimeout, retries))
      ensures partialExpires.Some? ==> deadline <= partialExpires.value
      ensures deadline <= now + Config.Shifted(config.nonReceiveTimeout, retries)
    {
      Config.BackoffFits(config, retries);
      var backoff := now + Config.Shifted(config.nonReceiveTimeout, retries);
      if partialExpires.Some? then Min(partialExpires.value, backoff) else backoff
    }

    /** A receive that failed: ask again for what is missing, or give up. */
    method Recover(contextDone: bool, canceled: bool, now: int, delivered: bool) returns (err: Option<Error>)
      requires Valid() && Open()
      modifies this
      ensures Valid() && Open() && assembly == old(assembly) && seen == old(seen)
      ensures err.None? ==> retries == old(retries) + 1
      ensures err.None? ==> asks != [] && asks[..|asks| - 1] == old(asks) && OneSet(asks[|asks| - 1], config.maxPayloads)
      ensures err.None? && assembly == null ==> asks[|asks| - 1] == Ask([0], true)
      ensures err.None? && assembly != null ==>
              !asks[|asks| - 1].more && Proper(config.maxPayloads, assembly.Shape(), assembly.blocks, asks[|asks| - 1])
      ensures err.Some? ==> asks == old(asks)
      ensures err.Some? ==> contextDone || canceled || !delivered || old(retries) == config.nonMaxRetransmit
                            || (partialExpires.Some? && partialExpires.value <= now)
    {
      hide Config.Resolved, HeldFrom, FirstGapSet, SameSet, Layout.Count, SumTo, Stored, AllStored, Proper;
      if contextDone {
        return Some(ContextDone);
      }
      if canceled {
        return Some(Canceled);
      }
      if partialExpires.Some? && partialExpires.value <= now {
        return Some(IncompleteBody);
      }
      if retries >= config.nonMaxRetransmit {
        return Some(Exhausted);
      }
      retries := retries + 1;
      if assembly == null {
        err := Send([0], true, delivered);
        return;
      }
      var gaps := assembly.MissingSet(config.maxPayloads);
      var nums := MissingSetOf(gaps, config.maxPayloads);
      MissingIsProper(config.maxPayloads, assembly.Shape(), assembly.blocks, assembly.firstMissing);
      if |nums| == 0 {
        return Some(IncompleteBody);
      }
      requestedSet := nums[0] / config.maxPayloads;
      err := Send(nums, false, delivered);
    }

    /** Starts assembling another representation. */
    method NewRepresentation(r: Response, szx: nat, size: nat, etag: seq<byte>, now: int) returns (err: Option<Error>)
      requires Valid() && assembly == null && szx <= maxSzx
      modifies this
      ensures Valid() && terminal == old(terminal) && asks == old(asks) && seen == old(seen) && retries == old(retries)
      ensures err.None? <==> size <= MAX_BODY && Layout(SzxSize(szx), size).Count() <= MAX_TRACKED
      ensures err.Some? ==> assembly == null
      ensures err.None? ==> assembly != null && fresh(assembly) && assembly.blocks == map[]
      ensures err.None? ==> assembly.Valid() && Current() == Identity(etag, size, r.code, szx) && bodyType.None?
    {
      hide Config.Resolved, Config.Resolve, Config.NonPartialTimeout, Layout.Count, Layout.Len, SumTo, HeldFrom, Config.Pow2,
           Stored, Config.Fits, Config.Shifted;
      var a := Assembly.New(szx, size, MAX_BODY, MAX_TRACKED);
      if a.Err? {
        return Some(Unfit(a.error));
      }
      NothingStored(a.value.Shape().Count());
      NothingHeld(seen, Identity(etag, size, r.code, szx));
      this.szx, assembly, this.etag := szx, a.value, etag;
      bodyType, code := None, r.code;
      Config.ResolveIsExact(config);
      Date(r, now);
      return None;
    }

    /** The notification number and the lifetime a new representation starts with. */
    method Date(r: Response, now: int)
      requires 0 <= config.nonMaxRetransmit
      modifies this`observeSequence, this`observePresent, this`observeTime, this`partialExpires
      ensures observePresent <==> First(r.observe).Some?
      ensures observePresent ==> observeSequence == First(r.observe).value && observeTime == now
      ensures partialExpires.Some? && partialExpires.value <= now + Config.NonPartialTimeout(config)
    {
      observePresent := false;
      if First(r.observe).Some? {
        observeSequence, observePresent, observeTime := First(r.observe).value, true, now;
      }
      var maxAge := if First(r.maxAge).Some? then First(r.maxAge).value else 60;
      var lifetime := if maxAge == 0 then Config.NonPartialTimeout(config) else maxAge * Config.SECOND;
      partialExpires := Some(now + Min(Config.NonPartialTimeout(config), lifetime));
    }

    predicate Changed(r: Response, size: nat, tag: seq<byte>)
      reads this
    {
      assembly != null && (etag != tag || size != assembly.bodySize || r.code != code)
    }

    predicate RegistrationTerminal(r: Response) {
      FinalAnswer(registration, token, r)
    }

    predicate SkipAfterTerminal(r: Response, changed: bool)
      reads this
    {
      terminal && (r.observe != [] || (changed && !RegistrationTerminal(r)))
    }

    predicate IsNewer(r: Response, now: int)
      reads this
    {
      First(r.observe).Some? && NewerSequence(observeSequence, First(r.observe).value, observeTime, now)
    }

    /** Forgets the representation under assembly and returns its bytes. */
    method GiveUp()
      requires Valid()
      modifies this`retainedBytes, this`assembly, this`continued, this`retries, this`requestedSet
      ensures Valid() && assembly == null && retries == 0
    {
      hide Config.Resolved, Config.Resolve, Config.Shifted, Config.Fits;
      Config.ResolveIsExact(config);
      retainedBytes, assembly := 0, null;
      continued, retries, requestedSet := 0, 0, -1;
    }

    /** Settles which representation the receiver is assembling before any byte is kept: on
        going on, it is the response's own. A body being assembled is given up only for a newer
        notification or for the final answer of the registration. */
    method Representation(r: Response, szx: nat, now: int) returns (skip: bool, err: Option<Error>)
      requires Valid() && Open() && szx <= maxSzx && BlockOf(r).Some? && BlockOf(r).value.szx == szx
      modifies this
      ensures Valid() && Open() && asks == old(asks) && seen == old(seen)
      ensures assembly == null || assembly == old(assembly) || (fresh(assembly) && assembly.blocks == map[])
      ensures skip ==> err.None? && assembly == old(assembly)
      ensures !skip && err.None? ==> assembly != null && IdentityOf(r) == Some(Current())
      ensures err.None? && old(assembly) != null && assembly != old(assembly) ==>
              old(observePresent) && (old(IsNewer(r, now)) || RegistrationTerminal(r))
      ensures err.None? && old(terminal) && r.observe != [] ==> skip
      ensures (old(terminal) ==> r.observe == []) && WellFormed(r, maxSzx)
              && (old(assembly) == null || old(Current()) == IdentityOf(r).value) ==>
              && (terminal ==> old(terminal) || RegistrationTerminal(r)) && !skip && err.None? && (bodyType == old(bodyType) || bodyType.None?)
              && (old(assembly) != null ==> assembly == old(assembly) && bodyType == old(bodyType))
      ensures retries == old(retries) || retries == 0
    {
      hide Config.Resolved, Config.Resolve, SumTo, Config.Pow2, HeldFrom, Stored, Layout.Count, Layout.Len, Config.Fits,
           Config.Shifted, NewerSequence;
      var identity := SizeAndTag(r);
      if identity.None? {
        return false, Some(InvalidBlock2);
      }
      var (size, tag) := identity.value;
      var changed := Changed(r, size, tag);
      if SkipAfterTerminal(r, changed) {
        return true, None;
      }
      var final := RegistrationTerminal(r);
      if changed && observePresent {
        if !IsNewer(r, now) && !final {
          return true, None;
        }
        GiveUp();
      }
      if assembly == null {
        terminal := final;
        err := NewRepresentation(r, szx, size, tag, now);
        if err.None? {
          assembly.Shape().Extent(0);
          assert 0 !in assembly.blocks;
        }
        return false, err;
      }
      if changed || szx != this.szx {
        return false, Some(Conflict);
      }
      if final {
        terminal, observePresent := true, false;
      }
      if observePresent && First(r.observe).Some? && First(r.observe).value != observeSequence && IsNewer(r, now) {
        observeSequence, observeTime := First(r.observe).value, now;
      }
      return false, None;
    }

    /** Keeps a block of the representation being assembled, if the byte budget grants it. */
    method Add(r: Response, num: int, more: bool, granted: bool)
      returns (complete: bool, duplicate: bool, err: Option<Error>)
      requires Valid() && Open() && assembly != null && r in seen
      requires IdentityOf(r) == Some(Current()) && BlockOf(r).value.num == num
      modifies this`retainedBytes, assembly
      ensures Valid() && assembly == old(assembly)
      ensures complete <==> err.None? && AllStored(assembly.Shape(), assembly.blocks)
      ensures err.None? ==> Open() || complete
      ensures err.None? <==>
              granted && r.payload.Some? && (duplicate || assembly.Shape().Fits(num, more, r.payload.value))
      ensures err.None? ==> num in assembly.blocks && (duplicate <==> num in old(assembly.blocks))
      ensures duplicate ==> !complete && assembly.blocks == old(assembly.blocks)
      ensures err.Some? ==> !duplicate && assembly.blocks == old(assembly.blocks)
      ensures !duplicate && err.None? ==> assembly.blocks == old(assembly.blocks)[num := r.payload.value]
      ensures retainedBytes == assembly.receivedSize
    {
      hide Config.Resolved, Layout.Count, SumTo, Layout.Len;
      if r.payload.None? {
        return false, false, Some(Unreadable);
      }
      if !granted {
        return false, false, Some(TooLargeBody);
      }
      ghost var before := assembly.blocks;
      var cause;
      complete, duplicate, cause := assembly.Add(num, more, r.payload.value);
      HeldStays(seen, Current(), before, num, r);
      if !duplicate && 0 <= num {
        SumToInsert(before, num, r.payload.value, assembly.Shape().Count());
      }
      if duplicate || cause.Some? {
        err := if cause.Some? then Some(Unfit(cause.value)) else None;
      } else {
        retainedBytes := retainedBytes + |r.payload.value|;
        err := None;
      }
    }

    /** Asks for the gaps of the first incomplete set. */
    method AskMissing(delivered: bool) returns (err: Option<Error>)
      requires Valid() && Open() && assembly != null
      modifies this`asks
      ensures err == if delivered then None else Some(Transport)
      ensures err.Some? ==> asks == old(asks)
      ensures err.None? ==> asks != [] && asks[..|asks| - 1] == old(asks) && OneSet(asks[|asks| - 1], config.maxPayloads)
      ensures err.None? ==> Proper(config.maxPayloads, assembly.Shape(), assembly.blocks, asks[|asks| - 1])
    {
      hide Config.Resolved, HeldFrom, FirstGapSet, SameSet, Layout.Count, Layout.Len, SumTo, Stored, AllStored, Proper, OneSet;
      MissingIsProper(config.maxPayloads, assembly.Shape(), assembly.blocks, assembly.firstMissing);
      var gaps := assembly.MissingSet(config.maxPayloads);
      var nums := MissingSetOf(gaps, config.maxPayloads);
      InRange(Ask(nums, false), config.maxPayloads);
      err := Send(nums, false, delivered);
    }

    /** The requests move on with the body: past a completed set, or back to a set with gaps. */
    method Advance(num: int, delivered: bool) returns (err: Option<Error>)
      requires Valid() && Open() && assembly != null
      modifies this
      ensures Valid() && Open() && assembly == old(assembly) && seen == old(seen)
      ensures Current() == old(Current()) && terminal == old(terminal) && bodyType == old(bodyType)
      ensures asks == old(asks)
              || (asks != [] && asks[..|asks| - 1] == old(asks) && OneSet(asks[|asks| - 1], config.maxPayloads)
                  && Proper(config.maxPayloads, assembly.Shape(), assembly.blocks, asks[|asks| - 1]))
      ensures err.Some? ==> !delivered && asks == old(asks)
      ensures retries == old(retries) || retries == 0
    {
      hide Config.Resolved, Config.Resolve, HeldFrom, FirstGapSet, SameSet, Layout.Count, Layout.Len, SumTo, Stored,
           AllStored, Proper, OneSet;
      var next, _ := assembly.FirstMissing();
      Config.ResolveIsExact(config);
      var resume := requestedSet >= 0 && next / config.maxPayloads > requestedSet;
      if resume {
        requestedSet, retries := -1, 0;
      }
      if (mode == NonConfirmable || resume) && next % config.maxPayloads == 0 && next > continued {
        continued := next;
        ContinueIsProper(config.maxPayloads, assembly.Shape(), assembly.blocks, next);
        InRange(Ask([next], true), config.maxPayloads);
        err := Send([next], true, delivered);
        return;
      }
      if num / config.maxPayloads > next / config.maxPayloads && requestedSet != next / config.maxPayloads {
        requestedSet := next / config.maxPayloads;
        err := AskMissing(delivered);
        return;
      }
      return None;
    }

    /** All payloads of a body share one type; an acknowledgement counts as confirmable. */
    method AcceptBodyType(r: Response) returns (err: Option<Error>)
      modifies this`mode, this`bodyType
      ensures err.None? <==> r.kind != Reset && (old(bodyType).None? || old(bodyType) == Some(Class(r.kind)))
      ensures err.None? ==> bodyType == Some(Class(r.kind)) && mode == Class(r.kind)
      ensures err.Some? ==> mode == old(mode) && bodyType == old(bodyType)
    {
      var kind := r.kind;
      if kind == Acknowledgement {
        kind := Confirmable;
      }
      if (kind != Confirmable && kind != NonConfirmable) || (bodyType.Some? && Some(kind) != bodyType) {
        return Some(InvalidBlock2);
      }
      bodyType, mode := Some(kind), kind;
      return None;
    }

    /** One response that carries the Q-Block2 option. */
    method Accept(r: Response, now: int, granted: bool, delivered: bool) returns (complete: bool, err: Option<Error>)
      requires Valid() && Open() && r in seen
      modifies this, assembly
      ensures Valid() && seen == old(seen)
      ensures assembly == null || assembly == old(assembly) || fresh(assembly)
      ensures complete ==> err.None? && assembly != null && AllStored(assembly.Shape(), assembly.blocks)
                           && IdentityOf(r) == Some(Current())
      ensures err.None? && !complete ==> Open()
      ensures (r.observe != [] ==> registration != Some(1) && !old(terminal)) && WellFormed(r, maxSzx) && granted && delivered
              && (old(bodyType).None? || old(bodyType) == Some(Class(r.kind)))
              && (old(assembly) == null || old(Current()) == IdentityOf(r).value) ==>
              && err.None? && (terminal ==> old(terminal) || RegistrationTerminal(r))
              && bodyType == Some(Class(r.kind)) && assembly != null
              && Current() == IdentityOf(r).value && BlockOf(r).value.num in assembly.blocks
              && (old(assembly) != null ==> old(assembly.blocks).Keys <= assembly.blocks.Keys)
      ensures asks == old(asks)
              || (asks != [] && asks[..|asks| - 1] == old(asks) && OneSet(asks[|asks| - 1], config.maxPayloads))
    {
      hide Config.Resolved, Config.Resolve, HeldFrom, FirstGapSet, SameSet, Layout.Count, SumTo, Stored, AllStored;
      if registration == Some(1) && r.observe != [] {
        return false, None;
      }
      if !ValidResponse(r) {
        return false, Some(InvalidBlock2);
      }
      var block := BlockOf(r);
      if block.None? || block.value.szx > maxSzx {
        return false, Some(InvalidBlock2);
      }
      var skip;
      skip, err := Representation(r, block.value.szx, now);
      if err.Some? || skip {
        return false, err;
      }
      err := AcceptBodyType(r);
      if err.Some? {
        return false, err;
      }
      var duplicate;
      complete, duplicate, err := Add(r, block.value.num, block.value.more, granted);
      if err.Some? || complete || duplicate {
        return complete, err;
      }
      err := Advance(block.value.num, delivered);
      return false, err;
    }

    /** Nothing that came was lost. */
    ghost predicate OnTrack(events: seq<Event>, n: nat, id: Identity, kind: Kind)
      requires Valid() && n <= |events|
      reads this, assembly
    {
      && (terminal ==> FinalCame(registration, token, events, n))
      && (assembly == null ==> n == 0 && bodyType.None?)
      && (assembly != null ==> Current() == id && bodyType == Some(kind)
                               && forall num :: Came(events, n, num) ==> num in assembly.blocks)
    }

    lemma RetriesAreBounded()
      requires Valid()
      ensures retries <= config.nonMaxRetransmit
    {
    }

    lemma StartsOnTrack(events: seq<Event>, id: Identity, kind: Kind)
      requires Valid() && assembly == null && !terminal && bodyType.None?
      ensures OnTrack(events, 0, id, kind)
    {
    }

    lemma StillWaits(events: seq<Event>, id: Identity, kind: Kind)
      requires Valid() && Open() && OnTrack(events, |events|, id, kind) && id.szx <= MAX_SZX
      ensures SomeNeverCame(events, id)
    {
      hide Config.Resolved, HeldFrom, SumTo, Stored, Came;
      if assembly == null {
        NothingCame(events, 0);
      }
    }

    /** Accepts the response of event `n`. */
    method Take(events: seq<Event>, n: nat, ghost id: Identity, ghost kind: Kind) returns (complete: bool, err: Option<Error>)
      requires Valid() && Open() && n < |events| && events[n].Arrives?
      modifies this, assembly
      ensures Valid() && seen == old(seen) + {events[n].response}
      ensures assembly == null || assembly == old(assembly) || fresh(assembly)
      ensures complete ==> err.None? && assembly != null && AllStored(assembly.Shape(), assembly.blocks)
                           && IdentityOf(events[n].response) == Some(Current())
      ensures err.None? && !complete ==> Open()
      ensures asks == old(asks)
              || (asks != [] && asks[..|asks| - 1] == old(asks) && OneSet(asks[|asks| - 1], config.maxPayloads))
      ensures Undisturbed(registration, token, events) && Smooth(events, maxSzx, id, kind) && old(OnTrack(events, n, id, kind)) ==>
              err.None? && OnTrack(events, n + 1, id, kind)
    {
      hide Config.Resolved, Config.Resolve, HeldFrom, Layout.Count, SumTo, Stored, AllStored, WellFormed, Came, OneSet;
      var ev := events[n];
      See(ev.response);
      ghost var held := if assembly == null then map[] else assembly.blocks;
      complete, err := Accept(ev.response, ev.now, ev.granted, ev.delivered);
      if Undisturbed(registration, token, events) && Smooth(events, maxSzx, id, kind) && old(OnTrack(events, n, id, kind)) {
        assert IdentityOf(ev.response) == Some(id);
        FinalNext(registration, token, events, n);
        forall num | Came(events, n + 1, num)
          ensures num in assembly.blocks
        {
          CameNext(events, n, num);
          if n == 0 {
            NothingCame(events, num);
          }
        }
      }
    }

    /** What becomes of the exchange with event `n`. */
    method React(events: seq<Event>, n: nat, ghost id: Identity, ghost kind: Kind) returns (outcome: Outcome)
      requires Valid() && Open() && n < |events|
      modifies this, assembly
      ensures Valid() && (seen == old(seen) || (events[n].Arrives? && seen == old(seen) + {events[n].response}))
      ensures assembly == null || assembly == old(assembly) || fresh(assembly)
      ensures outcome.Waiting? ==> Open() && 0 <= retries && (events[n].Fails? ==> retries == old(retries) + 1)
      ensures outcome.Finished? ==>
              && events[n].Arrives? && outcome.message == events[n].response
              && IdentityOf(outcome.message) == Some(outcome.id) && outcome.id.szx <= maxSzx && maxSzx <= MAX_SZX
              && Stored(outcome.id.Shape(), outcome.blocks) && AllStored(outcome.id.Shape(), outcome.blocks)
              && HeldFrom(seen, outcome.id, outcome.blocks)
      ensures asks == old(asks)
              || (asks != [] && asks[..|asks| - 1] == old(asks) && OneSet(asks[|asks| - 1], config.maxPayloads))
      ensures Undisturbed(registration, token, events) && Smooth(events, maxSzx, id, kind) && old(OnTrack(events, n, id, kind)) ==>
              outcome.Finished? || (outcome.Waiting? && OnTrack(events, n + 1, id, kind))
    {
      hide Config.Resolved, Config.Resolve, HeldFrom, Layout.Count, Layout.Len, SumTo, Stored, AllStored, WellFormed, Came,
           OneSet, OnTrack, Smooth, IdentityOf, RegistrationTerminal, Proper;
      if Smooth(events, maxSzx, id, kind) {
        SmoothAt(events, maxSzx, id, kind, n);
      }
      match events[n] {
        case Fails(contextDone, canceled, now, delivered) =>
          var err := Recover(contextDone, canceled, now, delivered);
          return if err.Some? then Failed(err.value) else Waiting;
        case Arrives(r, now, granted, delivered) =>
          if r.qBlock2 == [] {
            return Plain(RegistrationTerminal(r), assembly == null, r);
          }
          var complete, err := Take(events, n, id, kind);
          if err.Some? {
            return Failed(err.value);
          }
          if complete {
            return Finished(r, if observePresent then [Some(observeSequence)] else r.observe, IdentityOf(r).value, assembly.blocks);
          }
          return Waiting;
      }
    }
  }

  lemma FinalNext(registration: Option<nat>, token: seq<byte>, events: seq<Event>, n: nat)
    requires n < |events| && events[n].Arrives?
    ensures FinalCame(registration, token, events, n) || FinalAnswer(registration, token, events[n].response) ==>
            FinalCame(registration, token, events, n + 1)
  {
  }

  lemma NothingCame(events: seq<Event>, num: int)
    ensures !Came(events, 0, num)
  {
  }

  lemma CameNext(events: seq<Event>, n: nat, num: int)
    requires n < |events| && events[n].Arrives? && Came(events, n + 1, num)
    ensures Came(events, n, num) || (BlockOf(events[n].response).Some? && BlockOf(events[n].response).value.num == num)
  {
  }

  lemma SmoothAt(events: seq<Event>, szx: nat, id: Identity, kind: Kind, i: nat)
    requires i < |events| && Smooth(events, szx, id, kind)
    ensures events[i].Arrives? && events[i].response.qBlock2 != []
  {
  }

  ghost predicate SomeNeverCame(events: seq<Event>, id: Identity)
    requires id.szx <= MAX_SZX
  {
    exists num :: 0 <= num < id.Shape().Count() && !Came(events, |events|, num)
  }

  lemma NothingHeld(seen: set<Response>, id: Identity)
    ensures HeldFrom(seen, id, map[])
  {
  }

  lemma HeldStays(seen: set<Response>, id: Identity, b: Blocks, num: int, r: Response)
    requires HeldFrom(seen, id, b) && r in seen && r.payload.Some? && Carries(r, id, num, r.payload.value)
    ensures HeldFrom(seen, id, b[num := r.payload.value])
  {
  }

  // ---------------------------------------------------------------- whole runs

  /** Every block of `b` arrived in one of the first `n` events, as part of `id`. */
  ghost predicate Gathered(events: seq<Event>, n: nat, id: Identity, b: Blocks)
    requires n <= |events|
  {
    forall num :: num in b ==>
      exists i :: 0 <= i < n && events[i].Arrives? && Carries(events[i].response, id, num, b[num])
  }

  /** The server's side of the bargain: an identity names one body, and every block of that
      identity is cut from it. */
  ghost predicate Names(events: seq<Event>, id: Identity, body: seq<byte>)
    requires id.szx <= MAX_SZX
  {
    && |body| == id.size
    && forall i :: 0 <= i < |events| && events[i].Arrives? && IdentityOf(events[i].response) == Some(id) ==>
         var num := BlockOf(events[i].response).value.num;
         0 <= num < id.Shape().Count() ==> events[i].response.payload == Some(id.Shape().Block(body, num))
  }

  /** No torn body: blocks gathered under an identity that names one body are that body. */
  lemma OneRepresentation(events: seq<Event>, n: nat, id: Identity, b: Blocks, body: seq<byte>)
    requires n <= |events| && id.szx <= MAX_SZX && Names(events, id, body)
    requires Stored(id.Shape(), b) && AllStored(id.Shape(), b) && Gathered(events, n, id, b)
    ensures Content(id.Shape(), b) == body
  {
    forall num | num in b
      ensures b[num] == id.Shape().Block(body, num)
    {
      var i :| 0 <= i < n && events[i].Arrives? && Carries(events[i].response, id, num, b[num]);
      assert IdentityOf(events[i].response) == Some(id);
    }
    Rebuilt(id.Shape(), body, b);
  }

  ghost predicate SeenIn(seen: set<Response>, events: seq<Event>, n: nat)
    requires n <= |events|
  {
    forall r :: r in seen ==> exists i :: 0 <= i < n && events[i].Arrives? && events[i].response == r
  }

  lemma SeenLater(seen: set<Response>, events: seq<Event>, n: nat)
    requires n < |events| && SeenIn(seen, events, n)
    ensures SeenIn(seen, events, n + 1)
    ensures events[n].Arrives? ==> SeenIn(seen + {events[n].response}, events, n + 1)
  {
    forall r | r in seen
      ensures exists i :: 0 <= i < n + 1 && events[i].Arrives? && events[i].response == r
    {
      var i :| 0 <= i < n && events[i].Arrives? && events[i].response == r;
    }
  }

  lemma NothingSeen(events: seq<Event>)
    ensures SeenIn({}, events, 0)
  {
  }

  ghost predicate AllOneSet(asks: seq<Ask>, maxPayloads: int)
    requires 0 < maxPayloads
  {
    forall i :: 0 <= i < |asks| ==> OneSet(asks[i], maxPayloads)
  }

  lemma AskedOnce(before: seq<Ask>, asks: seq<Ask>, maxPayloads: int)
    requires 0 < maxPayloads
    requires asks == before || (asks != [] && asks[..|asks| - 1] == before && OneSet(asks[|asks| - 1], maxPayloads))
    ensures AllOneSet(before, maxPayloads) ==> AllOneSet(asks, maxPayloads)
  {
    hide OneSet;
    if asks != before {
      assert forall i :: 0 <= i < |before| ==> asks[i] == before[i];
    }
  }

  lemma NothingAsked(maxPayloads: int)
    requires 0 < maxPayloads
    ensures AllOneSet([], maxPayloads)
  {
  }

  /** Failed receives since the last response. */
  function Failures(events: seq<Event>): nat {
    if events == [] || events[|events| - 1].Arrives? then 0 else 1 + Failures(events[..|events| - 1])
  }

  lemma NoFailuresYet(events: seq<Event>)
    ensures Failures(events[..0]) == 0
  {
  }

  lemma FailuresNext(events: seq<Event>, n: nat)
    requires n < |events|
    ensures Failures(events[..n + 1]) == if events[n].Arrives? then 0 else 1 + Failures(events[..n])
  {
    assert events[..n + 1][..n] == events[..n];
  }

  /** The receive loop on any sequence of events. A finished body is whole and all of one
      representation, the one of the response that completed it; requests stay within one payload
      set; and the loop survives no more failures in a row than the configuration allows. Without
      mishaps it ends with the body once every block has come, for plain requests, registrations
      and requests that end an observation alike. */
  method ReceiveBody(config: Config.Params, registration: Option<nat>, token: seq<byte>, mode: Kind, szx: nat,
                     slot: bool, asked: bool, sent: bool, events: seq<Event>, ghost id: Identity, ghost kind: Kind)
    returns (outcome: Outcome, used: nat, asks: seq<Ask>)
    requires Config.Resolved(config) && szx <= MAX_SZX && 0 < config.maxPayloads && id.szx <= MAX_SZX
    ensures used <= |events|
    ensures outcome.Waiting? ==> used == |events| && Failures(events) <= config.nonMaxRetransmit
    ensures outcome.Finished? ==>
            && 0 < used && events[used - 1].Arrives? && outcome.message == events[used - 1].response
            && IdentityOf(outcome.message) == Some(outcome.id) && outcome.id.szx <= szx
            && Stored(outcome.id.Shape(), outcome.blocks) && AllStored(outcome.id.Shape(), outcome.blocks)
            && Gathered(events, used, outcome.id, outcome.blocks)
    ensures AllOneSet(asks, config.maxPayloads)
    ensures slot && sent && Undisturbed(registration, token, events) && Smooth(events, szx, id, kind) ==>
            outcome.Finished? || (outcome.Waiting? && SomeNeverCame(events, id))
  {
    hide *;
    FirstAskIsOneSet(config.maxPayloads);
    NothingSeen(events);
    NoFailuresYet(events);
    NothingAsked(config.maxPayloads);
    used, asks := 0, [];
    if !slot {
      return Failed(TooLargeBody), 0, [];
    }
    var s := new Receiver(config, registration, token, mode, szx);
    if !asked {
      var err := s.Begin(sent);
      if err.Some? {
        return Failed(err.value), 0, [];
      }
    }
    AskedOnce([], s.asks, config.maxPayloads);
    s.StartsOnTrack(events, id, kind);
    while used < |events|
      invariant used <= |events| && fresh(s) && (s.assembly != null ==> fresh(s.assembly))
      invariant s.Valid() && s.Open() && s.config == config && s.maxSzx == szx
      invariant Failures(events[..used]) <= s.retries
      invariant SeenIn(s.seen, events, used) && AllOneSet(s.asks, config.maxPayloads)
      invariant s.registration == registration && s.token == token
      invariant Undisturbed(registration, token, events) && Smooth(events, szx, id, kind) ==> s.OnTrack(events, used, id, kind)
    {
      SeenLater(s.seen, events, used);
      FailuresNext(events, used);
      ghost var before := s.asks;
      outcome := s.React(events, used, id, kind);
      AskedOnce(before, s.asks, config.maxPayloads);
      used := used + 1;
      if !outcome.Waiting? {
        if outcome.Finished? {
          GatheredFrom(events, used, s.seen, outcome.id, outcome.blocks);
        }
        return outcome, used, s.asks;
      }
    }
    assert events[..used] == events;
    s.RetriesAreBounded();
    if s.OnTrack(events, used, id, kind) {
      s.StillWaits(events, id, kind);
    }
    return Waiting, used, s.asks;
  }

  lemma HeldFromMore(seen: set<Response>, more: set<Response>, id: Identity, b: Blocks)
    requires HeldFrom(seen, id, b) && seen <= more
    ensures HeldFrom(more, id, b)
  {
    hide Carries;
  }

  lemma GatheredFrom(events: seq<Event>, n: nat, seen: set<Response>, id: Identity, b: Blocks)
    requires n <= |events| && HeldFrom(seen, id, b)
    requires SeenIn(seen, events, n)
    ensures Gathered(events, n, id, b)
  {
    hide Carries;
    forall num | num in b
      ensures exists i :: 0 <= i < n && events[i].Arrives? && Carries(events[i].response, id, num, b[num])
    {
      var r :| r in seen && Carries(r, id, num, b[num]);
      var i :| 0 <= i < n && events[i].Arrives? && events[i].response == r;
      assert Carries(events[i].response, id, num, b[num]);
    }
  }
}
