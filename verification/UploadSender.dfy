/** The client's Q-Block1 sender: sets of payloads sent without waiting, repeated on timeouts and
    missing-block reports, with a limited number of attempts for each NUM. */
module UploadSender {
  import opened Base
  import opened Transfer
  import opened Delivery
  import opened Recovery
  import opened Schedule
  import Config
  import Routes
  import Exchanges

  const MAX_TRACKED: int := 65536

  datatype Error = Exhausted(num: int) | FinalExhausted | BadReport | Blocked | Unreadable | ContextDone

  // ---------------------------------------------------------------- the protocol

  /** What an upload depends on: its parameters, its number of blocks, and how many requests get through before the
      exchange fails. */
  datatype Plan = Plan(config: Config.Params, count: int, room: nat) {
    predicate Valid() {
      0 < config.maxPayloads && 0 <= config.nonMaxRetransmit && 1 <= count
    }
  }

  datatype State = State(sent: seq<int>, next: int, retries: int, pending: seq<int>)

  datatype Status = Going(state: State) | Answered(sent: seq<int>) | Failed(error: Error, sent: seq<int>)

  datatype Event =
    | Expires(contextDone: bool)               // nothing came before the deadline
    | Continue(num: Option<int>)
    | Reports(report: Option<seq<int>>)
    | Final

  /** How often a NUM was sent. */
  function Times(sent: seq<int>, num: int): nat {
    multiset(sent)[num]
  }

  lemma TimesAdd(a: seq<int>, b: seq<int>, n: int)
    ensures Times(a + b, n) == Times(a, n) + Times(b, n) && (n in b <==> Times(b, n) > 0)
  {
    assert multiset(a + b) == multiset(a) + multiset(b);
  }

  lemma TimesOne(a: seq<int>, x: int, n: int)
    ensures Times(a + [x], n) == Times(a, n) + if n == x then 1 else 0
  {
  }

  /** Sends a list in order, up to the first NUM that cannot be sent. */
  function Emit(p: Plan, sent: seq<int>, nums: seq<int>): (seq<int>, Option<Error>)
    decreases |nums|
  {
    if nums == [] then (sent, None)
    else if !(0 <= nums[0] < p.count) || Times(sent, nums[0]) > p.config.nonMaxRetransmit
    then (sent, Some(Exhausted(nums[0])))
    else if |sent| >= p.room then (sent, Some(Blocked))
    else Emit(p, sent + [nums[0]], nums[1..])
  }

  function Resume(p: Plan, s: State, nums: seq<int>): Status {
    var (sent, err) := Emit(p, s.sent, nums);
    if err.None? then Going(s.(sent := sent)) else Failed(err.value, sent)
  }

  function NextSet(p: Plan, s: State): Status
    requires p.Valid() && 0 <= s.next < p.count
  {
    var last := SetLast(p.config.maxPayloads, s.next, p.count);
    Resume(p, s.(next := last + 1), Range(s.next, last + 1))
  }

  /** Nothing came in time: repeat the reported blocks, go on with the next set, or ask for the
      final response once more by repeating the last block. */
  function OnTimeout(p: Plan, s: State, contextDone: bool): Status
    requires p.Valid() && 0 <= s.next <= p.count
  {
    if contextDone then Failed(ContextDone, s.sent)
    else if s.pending != [] then Resume(p, s.(retries := s.retries + 1), s.pending)
    else if s.next < p.count then NextSet(p, s)
    else if s.retries >= p.config.nonMaxRetransmit then Failed(FinalExhausted, s.sent)
    else Resume(p, s.(retries := s.retries + 1), [p.count - 1])
  }

  /** The server has all payloads up to `num`. */
  function OnContinue(p: Plan, s: State, num: Option<int>): Status
    requires p.Valid() && 0 <= s.next <= p.count
  {
    if num.None? then Going(s)
    else
      var recovered := s.pending != [] && num.value >= s.pending[|s.pending| - 1];
      var s1 := if recovered then s.(pending := [], retries := 0) else s;
      if (recovered && s1.next < p.count) || num.value != s1.next - 1 || s1.next >= p.count then Going(s1)
      else NextSet(p, s1)
  }

  /** The server reports gaps: the first reported payload set is sent again. */
  function OnReport(p: Plan, s: State, report: Option<seq<int>>): Status
    requires p.Valid()
  {
    if report.None? || |report.value| > MAX_TRACKED then Failed(BadReport, s.sent)
    else
      var first := SameSet(report.value, p.config.maxPayloads);
      Resume(p, s.(pending := first), first)
  }

  function Step(p: Plan, s: State, e: Event): Status
    requires p.Valid() && 0 <= s.next <= p.count
  {
    match e
    case Expires(contextDone) => OnTimeout(p, s, contextDone)
    case Continue(num) => OnContinue(p, s, num)
    case Reports(report) => OnReport(p, s, report)
    case Final => Answered(s.sent)
  }

  function Run(p: Plan, events: seq<Event>): (r: Status)
    requires p.Valid()
    ensures r.Going? ==> 0 <= r.state.next <= p.count
  {
    if events == [] then
      NextInRange(p, State([], 0, 0, []));
      NextSet(p, State([], 0, 0, []))
    else
      var before := Run(p, events[..|events| - 1]);
      if before.Going? then
        StepInRange(p, before.state, events[|events| - 1]);
        Step(p, before.state, events[|events| - 1])
      else before
  }

  lemma NextInRange(p: Plan, s: State)
    requires p.Valid() && 0 <= s.next < p.count
    ensures var r := NextSet(p, s); r.Going? ==> s.next < r.state.next <= p.count
  {
    SetLastBounds(p.config.maxPayloads, s.next, p.count);
  }

  lemma StepInRange(p: Plan, s: State, e: Event)
    requires p.Valid() && 0 <= s.next <= p.count
    ensures var r := Step(p, s, e); r.Going? ==> s.next <= r.state.next <= p.count
  {
    hide SetLast, Emit;
    if s.next < p.count {
      NextInRange(p, s);
      NextInRange(p, s.(pending := [], retries := 0));
    }
  }

  // ---------------------------------------------------------------- what is sent

  function SentBy(r: Status): seq<int> {
    if r.Going? then r.state.sent else r.sent
  }

  /** Only blocks of the body are sent, and none more often than allowed. */
  ghost predicate Allowed(p: Plan, sent: seq<int>) {
    && (forall n :: n in sent ==> 0 <= n < p.count)
    && (forall n :: Times(sent, n) <= p.config.nonMaxRetransmit + 1)
  }

  lemma AllowedOne(p: Plan, sent: seq<int>, num: int)
    requires Allowed(p, sent) && 0 <= num < p.count && Times(sent, num) <= p.config.nonMaxRetransmit
    ensures Allowed(p, sent + [num])
  {
    hide Times;
    forall n
      ensures Times(sent + [num], n) <= p.config.nonMaxRetransmit + 1
    {
      TimesOne(sent, num, n);
    }
  }

  lemma {:induction false} EmitKeeps(p: Plan, sent: seq<int>, nums: seq<int>)
    requires Allowed(p, sent)
    ensures Allowed(p, Emit(p, sent, nums).0)
    ensures Emit(p, sent, nums).1.None? ==> Emit(p, sent, nums).0 == sent + nums
    ensures Emit(p, sent, nums).1.Some? ==> Emit(p, sent, nums).1.value in {Blocked} + set i | 0 <= i < |nums| :: Exhausted(nums[i])
    decreases |nums|
  {
    if nums != [] && 0 <= nums[0] < p.count && Times(sent, nums[0]) <= p.config.nonMaxRetransmit && |sent| < p.room {
      AllowedOne(p, sent, nums[0]);
      EmitKeeps(p, sent + [nums[0]], nums[1..]);
      assert sent + [nums[0]] + nums[1..] == sent + nums;
    }
  }

  /** Distinct NUMs of the body with attempts left all get through, if the exchange lets them. */
  lemma {:induction false} AffordableIsSent(p: Plan, sent: seq<int>, nums: seq<int>)
    requires |sent| + |nums| <= p.room && forall i, k :: 0 <= i < k < |nums| ==> nums[i] != nums[k]
    requires forall i :: 0 <= i < |nums| ==> 0 <= nums[i] < p.count && Times(sent, nums[i]) <= p.config.nonMaxRetransmit
    ensures Emit(p, sent, nums) == (sent + nums, None)
    decreases |nums|
  {
    hide Times;
    if nums == [] {
      assert sent + nums == sent;
    } else {
      var rest := nums[1..];
      forall i | 0 <= i < |rest|
        ensures Times(sent + [nums[0]], rest[i]) == Times(sent, nums[i + 1])
      {
        TimesOne(sent, nums[0], rest[i]);
      }
      AffordableIsSent(p, sent + [nums[0]], rest);
      assert sent + [nums[0]] + rest == sent + nums;
    }
  }

  lemma ResumeKeeps(p: Plan, s: State, nums: seq<int>)
    requires Allowed(p, s.sent)
    ensures var r := Resume(p, s, nums);
            && Allowed(p, SentBy(r)) && (r.Going? ==> r.state == s.(sent := s.sent + nums))
            && (r.Failed? ==> r.error.Blocked? || r.error.Exhausted?)
  {
    hide Emit, Allowed;
    EmitKeeps(p, s.sent, nums);
  }

  lemma {:induction false} AddOne(sent: seq<int>, num: int, n: nat)
    requires 0 <= num
    ensures Spent(sent + [num], n) == Spent(sent, n) + if num < n then 1 else 0
  {
    if n > 0 {
      AddOne(sent, num, n - 1);
    }
  }

  /** How often the first `n` NUMs were sent, together. */
  ghost function Spent(sent: seq<int>, n: nat): int {
    if n == 0 then 0 else Spent(sent, n - 1) + Times(sent, n - 1)
  }

  lemma {:induction false} AllSpent(sent: seq<int>, n: nat)
    requires forall k :: k in sent ==> 0 <= k < n
    ensures Spent(sent, n) == |sent|
    decreases |sent|
  {
    if sent == [] {
      NothingSpent(n);
    } else {
      var init, last := sent[..|sent| - 1], sent[|sent| - 1];
      assert sent == init + [last];
      assert last in sent && forall k :: k in init ==> k in sent;
      AllSpent(init, n);
      AddOne(init, last, n);
    }
  }

  lemma {:induction false} NothingSpent(n: nat)
    ensures Spent([], n) == 0
  {
    if n > 0 {
      NothingSpent(n - 1);
    }
  }

  lemma {:induction false} SpentIsBounded(sent: seq<int>, n: nat, each: nat)
    requires forall k :: Times(sent, k) <= each
    ensures Spent(sent, n) <= n * each
  {
    if n > 0 {
      SpentIsBounded(sent, n - 1, each);
      assert n * each == (n - 1) * each + each;
    }
  }

  /** The attempts of all blocks together. */
  lemma SentIsBounded(p: Plan, sent: seq<int>)
    requires p.Valid() && Allowed(p, sent)
    ensures |sent| <= p.count * (p.config.nonMaxRetransmit + 1)
  {
    AllSpent(sent, p.count);
    SpentIsBounded(sent, p.count, p.config.nonMaxRetransmit + 1);
  }

  // ---------------------------------------------------------------- how far the backoff goes

  /** Retries that attempts at a block can stand for: the first attempt at a block stands for none,
      nor does the one that answered a report. A block not yet due needs no first attempt before
      it is reported, and the last block is repeated without a report. */
  function Cap(m: int, n: int, next: int, count: int): nat {
    Max(0, if n < next && !(n == count - 1 && next == count) then m - 2 else m - 1)
  }

  ghost function CapSum(sent: seq<int>, next: int, count: int, k: nat): nat {
    if k == 0 then 0 else CapSum(sent, next, count, k - 1) + Cap(Times(sent, k - 1), k - 1, next, count)
  }

  /** Sending more never lowers what the attempts stand for; `x` may gain one. */
  ghost predicate Gains(sent: seq<int>, next: int, sent': seq<int>, next': int, count: int, x: int) {
    forall n :: 0 <= n < count ==>
      Cap(Times(sent, n), n, next, count) + (if n == x then 1 else 0) <= Cap(Times(sent', n), n, next', count)
  }

  lemma {:induction false} CapGrows(sent: seq<int>, next: int, sent': seq<int>, next': int, count: int, x: int, k: nat)
    requires k <= count && Gains(sent, next, sent', next', count, x)
    ensures CapSum(sent, next, count, k) + (if 0 <= x < k then 1 else 0) <= CapSum(sent', next', count, k)
    decreases k
  {
    hide Cap;
    if k > 0 {
      CapGrows(sent, next, sent', next', count, x, k - 1);
    }
  }

  /** The largest retry counter any run can reach. */
  function MaxRetries(config: Config.Params, count: int): int {
    if config.nonMaxRetransmit == 0 then 0
    else if count <= config.maxPayloads then count * (config.nonMaxRetransmit - 1) + 1
    else count * config.nonMaxRetransmit - config.maxPayloads
  }

  lemma {:induction false} CapIsBounded(sent: seq<int>, next: int, count: int, limit: nat, k: nat)
    requires k <= count && 0 <= next <= count && forall n :: Times(sent, n) <= limit + 1
    ensures limit == 0 ==> CapSum(sent, next, count, k) == 0
    ensures limit > 0 && next == count ==> CapSum(sent, next, count, k) <= k * (limit - 1) + if k == count then 1 else 0
    ensures limit > 0 && next < count ==> CapSum(sent, next, count, k) <= k * limit - Min(k, next)
    decreases k
  {
    if k > 0 {
      CapIsBounded(sent, next, count, limit, k - 1);
      assert k * limit == (k - 1) * limit + limit;
      assert k * (limit - 1) == (k - 1) * (limit - 1) + (limit - 1);
    }
  }

  /** Every NUM before `next` was sent, every reported one once more, and every retry has its
      attempt. */
  ghost predicate Sound(p: Plan, s: State) {
    && p.Valid() && Allowed(p, s.sent) && 0 <= s.next <= p.count
    && (forall n :: 0 <= n < s.next ==> n in s.sent)
    && (forall n :: n in s.pending ==> 0 <= n < p.count && Times(s.sent, n) >= if n < s.next then 2 else 1)
    && 0 <= s.retries <= CapSum(s.sent, s.next, p.count, p.count)
  }

  /** ... and the first payload set was sent whole: what every waiting state of a run satisfies. */
  ghost predicate Good(p: Plan, s: State) {
    Sound(p, s) && 0 < s.next && (s.next == p.count || s.next >= p.config.maxPayloads)
  }

  lemma RetriesAreBounded(p: Plan, s: State)
    requires Good(p, s)
    ensures 0 <= s.retries <= MaxRetries(p.config, p.count)
  {
    hide CapSum;
    var limit := p.config.nonMaxRetransmit;
    CapIsBounded(s.sent, s.next, p.count, limit, p.count);
    assert p.count * (limit - 1) == p.count * limit - p.count;
  }

  lemma SetKeeps(p: Plan, s: State)
    requires Sound(p, s) && s.next < p.count && (s.next == 0 || s.next >= p.config.maxPayloads)
    ensures var r := NextSet(p, s);
            && Allowed(p, SentBy(r)) && (r.Failed? ==> r.error.Blocked? || r.error.Exhausted?)
            && (r.Going? ==> Good(p, r.state) && |r.state.sent| > |s.sent| && r.state.next > s.next
                             && r.state.pending == s.pending && r.state.retries == s.retries)
  {
    hide CapSum, Emit, Range, Times, SetLast, Allowed;
    var r := NextSet(p, s);
    var last := SetLast(p.config.maxPayloads, s.next, p.count);
    SetLastBounds(p.config.maxPayloads, s.next, p.count);
    var nums := Range(s.next, last + 1);
    ResumeKeeps(p, s.(next := last + 1), nums);
    if r.Going? {
      SetSpends(p, s.sent, s.next, last);
      CapGrows(s.sent, s.next, s.sent + nums, last + 1, p.count, -1, p.count);
      FirstSetEnd(p.config.maxPayloads, s.next, p.count);
    }
  }

  lemma FirstSetEnd(maxPayloads: int, next: int, count: int)
    requires 0 < maxPayloads && 0 <= next < count && (next == 0 || next >= maxPayloads)
    ensures var end := SetLast(maxPayloads, next, count) + 1; end == count || end >= maxPayloads
  {
    SetLastBounds(maxPayloads, next, count);
    DivBounds(next, maxPayloads);
  }

  lemma SetSpends(p: Plan, sent: seq<int>, next: int, last: int)
    requires 0 <= next <= last < p.count && forall n :: 0 <= n < next ==> n in sent
    ensures var after := sent + Range(next, last + 1);
            && Gains(sent, next, after, last + 1, p.count, -1)
            && (forall n :: 0 <= n <= last ==> n in after)
            && (forall n :: Times(after, n) >= Times(sent, n) + if next <= n <= last then 1 else 0)
  {
    hide Times, Range;
    var nums := Range(next, last + 1);
    var after := sent + nums;
    forall n
      ensures Times(after, n) >= Times(sent, n) + if next <= n <= last then 1 else 0
      ensures next <= n <= last ==> n in after
    {
      TimesAdd(sent, nums, n);
      if next <= n <= last {
        assert nums[n - next] == n;
      }
    }
  }

  /** Sending a list again, all of whose NUMs will then have had their attempts. */
  lemma RepeatKeeps(p: Plan, s: State, nums: seq<int>, x: int)
    requires Good(p, s)
    requires 0 <= x ==>
             x in nums && Times(s.sent, x) >= if x < s.next && !(x == p.count - 1 && s.next == p.count) then 2 else 1
    ensures Gains(s.sent, s.next, s.sent + nums, s.next, p.count, x)
    ensures forall n :: n in nums ==> Times(s.sent + nums, n) >= if 0 <= n < s.next then 2 else 1
    ensures forall n :: Times(s.sent + nums, n) >= Times(s.sent, n)
    ensures forall n :: n in s.sent || n in nums <==> n in s.sent + nums
  {
    hide Times, CapSum, Allowed;
    forall n
      ensures Times(s.sent + nums, n) == Times(s.sent, n) + Times(nums, n)
      ensures n in nums <==> Times(nums, n) > 0
      ensures n in s.sent <==> Times(s.sent, n) > 0
    {
      TimesAdd(s.sent, nums, n);
      TimesAdd([], s.sent, n);
    }
  }

  lemma TimeoutKeeps(p: Plan, s: State, contextDone: bool)
    requires Good(p, s)
    ensures var r := OnTimeout(p, s, contextDone);
            && Allowed(p, SentBy(r)) && (r.Going? ==> Good(p, r.state) && |r.state.sent| > |s.sent|)
            && (r == Failed(FinalExhausted, SentBy(r)) ==> s.next == p.count && r.sent == s.sent)
  {
    hide CapSum, Emit, Range, Times, SetLast, Allowed, Gains;
    var r := OnTimeout(p, s, contextDone);
    if contextDone {
    } else if s.pending != [] {
      var x := s.pending[0];
      assert x in s.pending;
      ResumeKeeps(p, s.(retries := s.retries + 1), s.pending);
      RepeatKeeps(p, s, s.pending, x);
      CapGrows(s.sent, s.next, s.sent + s.pending, s.next, p.count, x, p.count);
    } else if s.next < p.count {
      SetKeeps(p, s);
    } else if s.retries < p.config.nonMaxRetransmit {
      var last := p.count - 1;
      assert last in [last] && last in s.sent;
      TimesAdd([], s.sent, last);
      assert [] + s.sent == s.sent;
      ResumeKeeps(p, s.(retries := s.retries + 1), [last]);
      RepeatKeeps(p, s, [last], last);
      CapGrows(s.sent, s.next, s.sent + [last], s.next, p.count, last, p.count);
    }
  }

  lemma ContinueKeeps(p: Plan, s: State, num: Option<int>)
    requires Good(p, s)
    ensures var r := OnContinue(p, s, num);
            && Allowed(p, SentBy(r)) && (r.Going? ==> Good(p, r.state) && |r.state.sent| >= |s.sent|)
            && (r.Failed? ==> r.error.Blocked? || r.error.Exhausted?)
            && (r.Going? && r.state.sent != s.sent ==> r.state.next > s.next && num == Some(s.next - 1))
            && (r.Going? && r.state.pending != s.pending ==> num.Some? && num.value >= s.pending[|s.pending| - 1])
  {
    hide CapSum, Emit, Range, Times, SetLast, Allowed;
    if s.next < p.count {
      SetKeeps(p, s);
    }
  }

  lemma ReportKeeps(p: Plan, s: State, report: Option<seq<int>>)
    requires Good(p, s)
    ensures var r := OnReport(p, s, report);
            && Allowed(p, SentBy(r)) && (r.Going? ==> Good(p, r.state) && |r.state.sent| >= |s.sent|)
            && (r.Failed? ==> r.error.Blocked? || r.error.Exhausted? || r.error.BadReport?)
            && (r.Going? ==> report.Some? && r.state.pending == SameSet(report.value, p.config.maxPayloads)
                             && r.state == s.(sent := s.sent + r.state.pending, pending := r.state.pending))
  {
    hide CapSum, Emit, Range, Times, SetLast, Allowed, Gains, SameSet;
    var r := OnReport(p, s, report);
    if report.Some? && |report.value| <= MAX_TRACKED {
      var nums := SameSet(report.value, p.config.maxPayloads);
      ResumeKeeps(p, s.(pending := nums), nums);
      RepeatKeeps(p, s, nums, -1);
      CapGrows(s.sent, s.next, s.sent + nums, s.next, p.count, -1, p.count);
      if r.Going? {
        SentAreBlocks(p, s.sent, nums);
      }
    }
  }

  lemma SentAreBlocks(p: Plan, sent: seq<int>, nums: seq<int>)
    requires Allowed(p, sent + nums)
    ensures forall n :: n in nums ==> 0 <= n < p.count
  {
    assert forall n :: n in nums ==> n in sent + nums;
  }

  lemma StepKeeps(p: Plan, s: State, e: Event)
    requires Good(p, s)
    ensures var r := Step(p, s, e);
            && Allowed(p, SentBy(r))
            && (r.Going? ==> Good(p, r.state) && |r.state.sent| >= |s.sent| + if e.Expires? then 1 else 0)
            && (r == Failed(FinalExhausted, SentBy(r)) ==> s.next == p.count && r.sent == s.sent)
  {
    hide CapSum, Allowed, OnTimeout, OnContinue, OnReport;
    match e
    case Expires(contextDone) => TimeoutKeeps(p, s, contextDone);
    case Continue(num) => ContinueKeeps(p, s, num);
    case Reports(report) => ReportKeeps(p, s, report);
    case Final =>
  }

  ghost function Timeouts(events: seq<Event>): nat {
    if events == [] then 0
    else Timeouts(events[..|events| - 1]) + if events[|events| - 1].Expires? then 1 else 0
  }

  /** Every run, against any server. Only blocks of the body are sent, none more often than allowed;
      every timeout uses up an attempt, so a run still waiting has seen at most
      `count * (limit + 1)` of them, and with finitely many responses it ends; the sender gives up on
      the final response only after every NUM was sent at least once; and the retry counter, by
      which the wait is doubled, has its bound. */
  lemma {:induction false} EveryRun(p: Plan, events: seq<Event>)
    requires p.Valid()
    ensures var r := Run(p, events);
            && Allowed(p, SentBy(r))
            && (r.Going? ==> Good(p, r.state) && 0 <= r.state.retries <= MaxRetries(p.config, p.count))
            && (r.Going? ==> Timeouts(events) <= |r.state.sent| <= p.count * (p.config.nonMaxRetransmit + 1))
            && (r == Failed(FinalExhausted, SentBy(r)) ==> forall n :: 0 <= n < p.count ==> n in r.sent)
    decreases |events|
  {
    hide Step, NextSet, CapSum, MaxRetries, Good, Allowed;
    if events == [] {
      StartKeeps(p);
    } else {
      var init, last := events[..|events| - 1], events[|events| - 1];
      EveryRun(p, init);
      var before := Run(p, init);
      if before.Going? {
        StepKeeps(p, before.state, last);
        AllBefore(p, before.state);
      }
    }
    var r := Run(p, events);
    if r.Going? {
      RetriesAreBounded(p, r.state);
      SentIsBounded(p, r.state.sent);
    }
  }

  lemma AllBefore(p: Plan, s: State)
    requires Good(p, s)
    ensures forall n :: 0 <= n < s.next ==> n in s.sent
  {
  }

  lemma StartKeeps(p: Plan)
    requires p.Valid()
    ensures var r := NextSet(p, State([], 0, 0, []));
            Allowed(p, SentBy(r)) && (r.Going? ==> Good(p, r.state)) && r != Failed(FinalExhausted, SentBy(r))
  {
    SetKeeps(p, State([], 0, 0, []));
  }

  // ---------------------------------------------------------------- the longest wait

  /** The sender waits with backoff: for the final response, or for reported blocks. */
  predicate Backing(p: Plan, s: State) {
    s.next == p.count || s.pending != []
  }

  lemma OneMore(p: Plan, sent: seq<int>, n: int)
    requires 0 <= n < p.count && Times(sent, n) <= p.config.nonMaxRetransmit && |sent| < p.room
    ensures Emit(p, sent, [n]) == (sent + [n], None)
  {
    hide Times;
    assert [n][1..] == [];
    assert Emit(p, sent + [n], []) == (sent + [n], None);
  }

  lemma RunNext(p: Plan, events: seq<Event>, e: Event)
    requires p.Valid() && Run(p, events).Going?
    ensures Run(p, events + [e]) == Step(p, Run(p, events).state, e)
  {
    assert (events + [e])[..|events|] == events;
  }

  lemma SameSetOfOne(n: int, maxPayloads: int)
    requires 0 < maxPayloads
    ensures SameSet([n], maxPayloads) == [n]
  {
    SameSetStaysInOneSet([n], maxPayloads);
  }

  /** A server that reports one block. */
  lemma ReportOne(p: Plan, events: seq<Event>, n: int)
    requires p.Valid() && 0 <= n < p.count && Run(p, events).Going? && |Run(p, events).state.sent| < p.room
    requires Times(Run(p, events).state.sent, n) <= p.config.nonMaxRetransmit
    ensures var s := Run(p, events).state;
            Run(p, events + [Reports(Some([n]))]) == Going(s.(sent := s.sent + [n], pending := [n]))
  {
    hide Run, Times, Emit;
    var s := Run(p, events).state;
    RunNext(p, events, Reports(Some([n])));
    OneMore(p, s.sent, n);
    SameSetOfOne(n, p.config.maxPayloads);
  }

  /** ... and is silent for a while: the block is sent again and again. */
  lemma {:induction false} SilentFor(p: Plan, events: seq<Event>, n: int, k: nat) returns (more: seq<Event>)
    requires p.Valid() && 0 <= n < p.count && Run(p, events).Going? && |Run(p, events).state.sent| + k <= p.room
    requires var s := Run(p, events).state;
             && Times(s.sent, n) + k <= p.config.nonMaxRetransmit + 1
             && (s.pending == [n]
                 || (s.pending == [] && s.next == p.count && n == p.count - 1 && s.retries + k <= p.config.nonMaxRetransmit))
    ensures Run(p, more).Going?
    ensures var s, s' := Run(p, events).state, Run(p, more).state;
            && s'.retries == s.retries + k && s'.next == s.next && s'.pending == s.pending && |s'.sent| == |s.sent| + k
            && (forall m :: Times(s'.sent, m) == Times(s.sent, m) + if m == n then k else 0)
  {
    hide Run, Times, Emit;
    more := events;
    if k > 0 {
      more := SilentFor(p, events, n, k - 1);
      var s := Run(p, more).state;
      RunNext(p, more, Expires(false));
      OneMore(p, s.sent, n);
      more := more + [Expires(false)];
      forall m
        ensures Times(s.sent + [n], m) == Times(s.sent, m) + if m == n then 1 else 0
      {
        TimesOne(s.sent, n, m);
      }
    }
  }

  /** All the attempts left for a block, but the one that answers the report, become retries. */
  lemma Press(p: Plan, events: seq<Event>, n: int) returns (more: seq<Event>)
    requires p.Valid() && 0 <= n < p.count && Run(p, events).Going?
    requires var s := Run(p, events).state;
             && Times(s.sent, n) <= p.config.nonMaxRetransmit
             && |s.sent| + 1 + p.config.nonMaxRetransmit - Times(s.sent, n) <= p.room
    ensures Run(p, more).Going?
    ensures var s, s' := Run(p, events).state, Run(p, more).state;
            var gain := p.config.nonMaxRetransmit - Times(s.sent, n);
            && s'.retries == s.retries + gain && |s'.sent| == |s.sent| + 1 + gain
            && s'.next == s.next && s'.pending == [n]
            && (forall m :: m != n ==> Times(s'.sent, m) == Times(s.sent, m))
  {
    hide Run, Times, Emit;
    var s := Run(p, events).state;
    ReportOne(p, events, n);
    forall m
      ensures Times(s.sent + [n], m) == Times(s.sent, m) + if m == n then 1 else 0
    {
      TimesOne(s.sent, n, m);
    }
    more := SilentFor(p, events + [Reports(Some([n]))], n, p.config.nonMaxRetransmit - Times(s.sent, n));
  }

  /** The blocks from the last one down, so far as there are retries in them. */
  function Pressed(p: Plan): int {
    if p.config.nonMaxRetransmit > 1 then p.count
    else if p.count <= p.config.maxPayloads then 1 else p.count - p.config.maxPayloads
  }

  /** The retries the last `k` blocks yield: the last one, when all were sent at once, and every
      block not yet due yield one more than the others. */
  function Yield(p: Plan, k: int): int {
    var limit, more := p.config.nonMaxRetransmit, Max(1, p.count - p.config.maxPayloads);
    k * (limit - 1) + Min(k, more)
  }

  lemma YieldAll(p: Plan)
    requires p.Valid() && 1 <= p.config.nonMaxRetransmit
    ensures 1 <= Pressed(p) <= p.count && Yield(p, Pressed(p)) == MaxRetries(p.config, p.count)
  {
    var limit := p.config.nonMaxRetransmit;
    assert p.count * (limit - 1) == p.count * limit - p.count;
  }

  lemma YieldNext(p: Plan, k: int)
    requires 1 <= k && 1 <= p.config.nonMaxRetransmit
    ensures Yield(p, k) == Yield(p, k - 1) + p.config.nonMaxRetransmit
                           - if k <= Max(1, p.count - p.config.maxPayloads) then 0 else 1
  {
    assert k * (p.config.nonMaxRetransmit - 1) == (k - 1) * (p.config.nonMaxRetransmit - 1) + p.config.nonMaxRetransmit - 1;
  }

  /** A server that lets the last `k` blocks time out as often as they can, one after the other. */
  lemma {:induction false} Climb(p: Plan, k: nat) returns (events: seq<Event>)
    requires p.Valid() && 1 <= p.config.nonMaxRetransmit && k <= Pressed(p) && p.config.maxPayloads + 2 * Yield(p, k) <= p.room
    ensures Run(p, events).Going?
    ensures var s := Run(p, events).state;
            && s.next == Min(p.config.maxPayloads, p.count) && s.retries == Yield(p, k)
            && |s.sent| <= p.config.maxPayloads + 2 * Yield(p, k) && (k > 0 ==> Backing(p, s))
            && (forall m :: 0 <= m < p.count - k ==> Times(s.sent, m) == if m < s.next then 1 else 0)
  {
    hide Run, Times, Emit, Range, Yield;
    YieldAll(p);
    if k == 0 {
      YieldOfNone(p);
      Started(p);
      events := [];
      return;
    }
    YieldNext(p, k);
    events := Climb(p, k - 1);
    var n := p.count - k;
    if k == 1 && p.count <= p.config.maxPayloads {
      YieldOfNone(p);
      Started(p);
      events := SilentFor(p, [], n, p.config.nonMaxRetransmit);
    } else {
      events := Press(p, events, n);
    }
  }

  lemma YieldOfNone(p: Plan)
    requires p.Valid()
    ensures Yield(p, 0) == 0
  {
  }

  lemma RangeFront(lo: int, hi: int)
    requires 0 <= lo < hi
    ensures Range(lo, hi)[0] == lo && Range(lo, hi)[1..] == Range(lo + 1, hi) && Range(0, lo) + [lo] == Range(0, lo + 1)
    ensures Times(Range(0, lo), lo) == 0
  {
    hide Range, Times;
    RangeOnce(lo, lo);
  }

  lemma {:induction false} EmitRange(p: Plan, lo: int, hi: int)
    requires p.Valid() && 0 <= lo <= hi <= Min(p.count, p.room)
    ensures Emit(p, Range(0, lo), Range(lo, hi)) == (Range(0, hi), None)
    decreases hi - lo
  {
    hide Range, Times;
    if lo < hi {
      RangeFront(lo, hi);
      EmitRange(p, lo + 1, hi);
    }
  }

  lemma Started(p: Plan)
    requires p.Valid() && p.config.maxPayloads <= p.room
    ensures var first := Min(p.config.maxPayloads, p.count);
            Run(p, []) == Going(State(Range(0, first), first, 0, []))
    ensures forall m :: 0 <= m < p.count ==> Times(Range(0, Min(p.config.maxPayloads, p.count)), m)
                                             == if m < p.config.maxPayloads then 1 else 0
  {
    hide Range, Times, Emit;
    var first := Min(p.config.maxPayloads, p.count);
    DivUnique(0, p.config.maxPayloads, 0);
    assert Range(0, 0) == [];
    EmitRange(p, 0, first);
    forall m | 0 <= m < p.count
      ensures Times(Range(0, first), m) == if m < p.config.maxPayloads then 1 else 0
    {
      RangeOnce(first, m);
    }
  }

  lemma {:induction false} RangeOnce(hi: nat, m: int)
    ensures Times(Range(0, hi), m) == if 0 <= m < hi then 1 else 0
  {
    hide Times;
    if hi == 0 {
      TimesAdd([], [], m);
    } else {
      RangeOnce(hi - 1, m);
      TimesOne(Range(0, hi - 1), hi - 1, m);
    }
  }

  /** The least number of blocks that yields so many retries. */
  lemma {:induction false} Enough(p: Plan, t: int, top: nat) returns (k: nat)
    requires p.Valid() && 1 <= p.config.nonMaxRetransmit && 0 < t <= Yield(p, top)
    ensures 0 < k <= top && t <= Yield(p, k) < t + p.config.nonMaxRetransmit
  {
    hide Yield;
    YieldOfNone(p);
    YieldNext(p, top);
    k := top;
    if t <= Yield(p, top - 1) {
      k := Enough(p, t, top - 1);
    }
  }

  /** Any retry counter up to the largest is reached or passed, with no more than two requests for
      every retry. */
  lemma Reach(p: Plan, t: int) returns (events: seq<Event>)
    requires p.Valid() && 1 <= p.config.nonMaxRetransmit && 0 < t <= MaxRetries(p.config, p.count)
    requires p.config.maxPayloads + 2 * (t + p.config.nonMaxRetransmit) <= p.room
    ensures Run(p, events).Going? && Backing(p, Run(p, events).state)
    ensures t <= Run(p, events).state.retries
  {
    hide Run, Times, Yield, MaxRetries;
    YieldAll(p);
    var k := Enough(p, t, Pressed(p));
    events := Climb(p, k);
  }

  /** The bound on the retry counter is sharp: some run reaches it. */
  lemma Worst(p: Plan) returns (events: seq<Event>)
    requires p.Valid() && 1 <= p.config.nonMaxRetransmit
    requires p.room == p.config.maxPayloads + 2 * (MaxRetries(p.config, p.count) + p.config.nonMaxRetransmit)
    ensures Run(p, events).Going? && Backing(p, Run(p, events).state)
    ensures Run(p, events).state.retries == MaxRetries(p.config, p.count)
  {
    hide Run, Times, Yield, MaxRetries, Good, Allowed;
    YieldAll(p);
    YieldIsPositive(p, Pressed(p));
    events := Reach(p, MaxRetries(p.config, p.count));
    EveryRun(p, events);
  }

  lemma YieldIsPositive(p: Plan, k: int)
    requires 1 <= k && 1 <= p.config.nonMaxRetransmit
    ensures 1 <= Yield(p, k)
  {
    MulMono(0, k, p.config.nonMaxRetransmit - 1);
  }

  /** The backoff of the upload, the receive timeout with its second of slack shifted by the retry
      counter, fits in 64 bits in every run an exchange has tokens for if and only if it does at the
      largest counter. The configuration only sees to it for a counter within the retransmission
      limit. */
  lemma BackoffFitsIff(config: Config.Params, count: int)
    requires Config.Resolved(config) && 1 <= count
    ensures (forall room: nat, events :: room <= Routes.MAX_ALIASES ==> Patient(Plan(config, count, room), events))
            <==> Config.Fits(Config.Shifted(config.nonReceiveTimeout + Config.SECOND, Max(0, MaxRetries(config, count))))
  {
    hide Run, MaxRetries, Config.Resolved, Config.Resolve, Config.Pow2, Good, Allowed, Times;
    Config.ResolveIsExact(config);
    var wait := config.nonReceiveTimeout + Config.SECOND;
    NoRetriesFit(config, count);
    if Config.Fits(Config.Shifted(wait, MaxRetries(config, count))) {
      forall room: nat, events
        ensures Patient(Plan(config, count, room), events)
      {
        var p := Plan(config, count, room);
        EveryRun(p, events);
        if Run(p, events).Going? {
          ShorterFits(wait, Run(p, events).state.retries, MaxRetries(config, count));
        }
      }
    } else {
      var p := Plan(config, count, Routes.MAX_ALIASES);
      var t := Min(64, MaxRetries(config, count));
      NothingFitsAt64(wait);
      var events := Reach(p, t);
      if Patient(p, events) {
        ShorterFits(wait, t, Run(p, events).state.retries);
      }
      assert !Patient(p, events);
    }
  }

  lemma NothingFitsAt64(wait: int)
    requires 1 <= wait
    ensures !Config.Fits(Config.Shifted(wait, 64))
  {
    Pow2At30();
    Config.Pow2Mono(31, 64);
    Pow2At64();
    MulMono(1, wait, Config.Pow2(64));
  }

  lemma Pow2At64()
    ensures Config.Pow2(64) > MAX_INT64
  {
    Pow2At30();
    Doubling(31, 0x8000_0000);
    Doubling(39, 0x80_0000_0000);
    Doubling(47, 0x8000_0000_0000);
    Doubling(55, 0x80_0000_0000_0000);
    assert Config.Pow2(63) == 0x8000_0000_0000_0000;
  }

  lemma Doubling(n: nat, v: int)
    requires Config.Pow2(n) == v
    ensures Config.Pow2(n + 8) == 256 * v
  {
    assert Config.Pow2(n + 2) == 4 * v;
    assert Config.Pow2(n + 4) == 16 * v;
    assert Config.Pow2(n + 6) == 64 * v;
  }

  ghost predicate Patient(p: Plan, events: seq<Event>) {
    p.Valid() && (Run(p, events).Going? && Backing(p, Run(p, events).state) ==>
                    Run(p, events).state.retries >= 0
                    && Config.Fits(Config.Shifted(p.config.nonReceiveTimeout + Config.SECOND, Run(p, events).state.retries)))
  }

  lemma ShorterFits(wait: int, retries: nat, most: nat)
    requires 0 <= wait && retries <= most && Config.Fits(Config.Shifted(wait, most))
    ensures Config.Fits(Config.Shifted(wait, retries))
  {
    Config.Pow2Mono(retries, most);
    Config.ProductBound(wait, Config.Pow2(retries), wait, Config.Pow2(most));
  }

  lemma NoRetriesFit(config: Config.Params, count: int)
    requires Config.Resolved(config) && 1 <= count
    ensures Config.Fits(Config.Shifted(config.nonReceiveTimeout + Config.SECOND, 0))
    ensures 0 <= MaxRetries(config, count) && (config.nonMaxRetransmit == 0 ==> MaxRetries(config, count) == 0)
  {
    hide Config.Resolved, Config.Resolve;
    Config.ResolveIsExact(config);
    Config.BackoffFits(config, 0);
    if 0 < config.nonMaxRetransmit {
      MulMono(0, config.nonMaxRetransmit - 1, count);
      MulMono(1, config.nonMaxRetransmit, count);
    }
  }

  /** With the default parameters that is for bodies of at most nine blocks. */
  lemma DefaultsFitIff(count: int)
    requires 1 <= count
    ensures (forall room: nat, events :: room <= Routes.MAX_ALIASES ==> Patient(Plan(Config.DEFAULTS, count, room), events))
            <==> count <= 9
  {
    hide Run, Patient;
    Config.DefaultsAreResolved();
    assert Config.Resolved(Config.DEFAULTS);
    BackoffFitsIff(Config.DEFAULTS, count);
    Pow2At30();
    if count <= 9 {
      ShorterFits(5 * Config.SECOND, MaxRetries(Config.DEFAULTS, count), 30);
    } else if Config.Fits(Config.Shifted(5 * Config.SECOND, MaxRetries(Config.DEFAULTS, count))) {
      ShorterFits(5 * Config.SECOND, 31, MaxRetries(Config.DEFAULTS, count));
    }
  }

  lemma Pow2At30()
    ensures Config.Pow2(30) == 0x4000_0000 && Config.Pow2(31) == 0x8000_0000
  {
    Config.Pow2At20();
    assert Config.Pow2(22) == 0x40_0000;
    assert Config.Pow2(24) == 0x100_0000;
    assert Config.Pow2(26) == 0x400_0000;
    assert Config.Pow2(28) == 0x1000_0000;
  }

  // ---------------------------------------------------------------- how long that takes

  /** The wait a state calls for: doubled with every retry, or the pacing delay between sets. */
  function Wait(p: Plan, delay: nat, s: State): int
    requires 0 <= s.retries
  {
    if Backing(p, s) then Config.Shifted(p.config.nonReceiveTimeout + Config.SECOND, s.retries) else delay
  }

  /** A Continue that sends nothing leaves the deadline where it is, unless it ends a recovery with
      sets still to come. */
  predicate Leaves(p: Plan, s: State, s': State, e: Event) {
    e.Continue? && s'.sent == s.sent && !(s'.pending != s.pending && s'.next < p.count)
  }

  /** The wait that is running after these events. */
  ghost function Armed(p: Plan, delay: nat, events: seq<Event>): int
    requires p.Valid() && Run(p, events).Going?
    decreases |events|
  {
    var s' := Run(p, events).state;
    EveryRun(p, events);
    if events == [] then Wait(p, delay, s')
    else
      var init, last := events[..|events| - 1], events[|events| - 1];
      if Leaves(p, Run(p, init).state, s', last) then Armed(p, delay, init) else Wait(p, delay, s')
  }

  /** The time spent in waits that ran to their end. */
  ghost function Waited(p: Plan, delay: nat, events: seq<Event>): int
    requires p.Valid() && Run(p, events).Going?
    decreases |events|
  {
    if events == [] then 0
    else
      var init, last := events[..|events| - 1], events[|events| - 1];
      Waited(p, delay, init) + if last.Expires? then Armed(p, delay, init) else 0
  }

  /** What one event does to the retry counter. */
  lemma RetryStep(p: Plan, s: State, e: Event)
    requires Good(p, s) && Step(p, s, e).Going?
    ensures var s' := Step(p, s, e).state;
            && (s'.retries > s.retries ==> s'.retries == s.retries + 1 && e.Expires? && Backing(p, s))
            && (Leaves(p, s, s', e) && Backing(p, s') ==> Backing(p, s) && s'.retries <= s.retries)
  {
    hide CapSum, Emit, Range, Times, SetLast, Allowed, SameSet;
    match e
    case Expires(contextDone) =>
      if s.pending == [] && s.next < p.count {
        SetKeeps(p, s);
      }
    case Continue(num) =>
      if s.next < p.count {
        SetKeeps(p, s);
      }
    case Reports(report) => ReportKeeps(p, s, report);
    case Final =>
  }

  /** Every wait is earned: with r retries behind it, the sender has already waited 2^r - 1 times the
      first wait, and the wait that is running is no shorter than the state calls for. */
  lemma {:induction false} WaitsAreEarned(p: Plan, delay: nat, events: seq<Event>)
    requires p.Valid() && 0 <= p.config.nonReceiveTimeout && Run(p, events).Going?
    ensures var s := Run(p, events).state;
            && 0 <= s.retries && 0 <= Armed(p, delay, events)
            && (Backing(p, s) ==> Config.Shifted(p.config.nonReceiveTimeout + Config.SECOND, s.retries) <= Armed(p, delay, events))
            && (p.config.nonReceiveTimeout + Config.SECOND) * (Config.Pow2(s.retries) - 1) <= Waited(p, delay, events)
    decreases |events|
  {
    hide Step, NextSet, Good, MaxRetries, Allowed, Config.Pow2, Backing;
    EveryRun(p, events);
    var base := p.config.nonReceiveTimeout + Config.SECOND;
    var s' := Run(p, events).state;
    ShiftIsPositive(base, s'.retries);
    if events == [] {
      NoRetriesYet(p, delay);
    } else {
      var init, last := events[..|events| - 1], events[|events| - 1];
      WaitsAreEarned(p, delay, init);
      EveryRun(p, init);
      var s := Run(p, init).state;
      RetryStep(p, s, last);
      EarnedNext(base, s.retries, s'.retries, Armed(p, delay, init), Waited(p, delay, init), last.Expires?);
      if Leaves(p, s, s', last) && Backing(p, s') {
        ShiftGrows(base, s'.retries, s.retries);
      }
    }
  }

  lemma ShiftIsPositive(base: int, r: nat)
    requires 0 <= base
    ensures 0 <= Config.Shifted(base, r)
  {
    MulMono(0, base, Config.Pow2(r));
  }

  lemma ShiftGrows(base: int, r: nat, q: nat)
    requires 0 <= base && r <= q
    ensures Config.Shifted(base, r) <= Config.Shifted(base, q)
  {
    Config.Pow2Mono(r, q);
    MulMono(Config.Pow2(r), Config.Pow2(q), base);
  }

  lemma NoRetriesYet(p: Plan, delay: nat)
    requires p.Valid() && Run(p, []).Going?
    ensures Run(p, []).state.retries == 0 && Config.Pow2(0) == 1 && Waited(p, delay, []) == 0
  {
    hide SetLast, Range;
    ResumeKeeps(p, State([], SetLast(p.config.maxPayloads, 0, p.count) + 1, 0, []), Range(0, SetLast(p.config.maxPayloads, 0, p.count) + 1));
  }

  lemma EarnedNext(base: int, r: nat, r': nat, armed: int, waited: int, expires: bool)
    requires 0 <= base && 0 <= armed && base * (Config.Pow2(r) - 1) <= waited
    requires r' > r ==> r' == r + 1 && expires && Config.Shifted(base, r) <= armed
    ensures base * (Config.Pow2(r') - 1) <= waited + if expires then armed else 0
  {
    if r' > r {
      Config.Doubled(base, Config.Pow2(r));
    } else {
      Config.Pow2Mono(r', r);
      MulMono(Config.Pow2(r') - 1, Config.Pow2(r) - 1, base);
    }
  }

  /** In every run the next wait is at most the first one and the time already waited together, so at
      most twice that time after the first retry; and a wait that does not fit in 64 bits comes only
      after waiting, in all, the largest duration there is less the first wait. */
  lemma NextWaitIsEarned(config: Config.Params, count: int, room: nat, delay: nat, events: seq<Event>)
    requires Config.Resolved(config) && 1 <= count && Plan(config, count, room).Valid()
    requires Run(Plan(config, count, room), events).Going? && Backing(Plan(config, count, room), Run(Plan(config, count, room), events).state)
    ensures var p, base := Plan(config, count, room), config.nonReceiveTimeout + Config.SECOND;
            var s := Run(p, events).state;
            && 0 <= s.retries
            && Wait(p, delay, s) <= base + Waited(p, delay, events)
            && (s.retries >= 1 ==> Wait(p, delay, s) <= 2 * Waited(p, delay, events))
            && (!Config.Fits(Wait(p, delay, s)) ==> Waited(p, delay, events) > MAX_INT64 - base)
  {
    hide Run, Config.Resolved, Config.Resolve, Waited;
    Config.ResolveIsExact(config);
    var p, base := Plan(config, count, room), config.nonReceiveTimeout + Config.SECOND;
    WaitsAreEarned(p, delay, events);
    var s := Run(p, events).state;
    ShiftIsPositive(base, s.retries);
    assert base * (Config.Pow2(s.retries) - 1) == base * Config.Pow2(s.retries) - base;
    if s.retries >= 1 {
      Config.Pow2Mono(1, s.retries);
      assert Config.Pow2(1) == 2;
      MulMono(2, Config.Pow2(s.retries), base);
    }
  }

  // ---------------------------------------------------------------- the code

  type Attempts = map<int, int>

  function Tried(a: Attempts, num: int): int {
    if num in a then a[num] else 0
  }

  function Nums(sent: seq<Arrival>): (nums: seq<int>)
    ensures |nums| == |sent|
  {
    seq(|sent|, i requires 0 <= i < |sent| => sent[i].num)
  }

  lemma NumsNext(sent: seq<Arrival>, a: Arrival)
    ensures Nums(sent + [a]) == Nums(sent) + [a.num]
  {
  }

  lemma CountOne(sent: seq<Arrival>, a: Arrival)
    ensures Nums(sent + [a]) == Nums(sent) + [a.num]
    ensures forall n :: Times(Nums(sent + [a]), n) == Times(Nums(sent), n) + if n == a.num then 1 else 0
  {
    hide Times;
    NumsNext(sent, a);
    forall n
      ensures Times(Nums(sent + [a]), n) == Times(Nums(sent), n) + if n == a.num then 1 else 0
    {
      TimesOne(Nums(sent), a.num, n);
    }
  }

  lemma DeliveryNext(l: Layout, body: seq<byte>, sent: seq<Arrival>, num: int)
    requires l.Valid() && |body| == l.size && IsDelivery(l, body, sent) && 0 <= num < l.Count()
    ensures IsDelivery(l, body, sent + [Sent(l, body, num)])
  {
  }

  /** One NUM: refused, held up by the exchange, or sent. */
  lemma EmitOne(config: Config.Params, count: int, sent: seq<int>, num: int)
    ensures !(0 <= num < count) || Times(sent, num) > config.nonMaxRetransmit ==>
            Emit(Plan(config, count, |sent|), sent, [num]) == (sent, Some(Exhausted(num)))
    ensures 0 <= num < count && Times(sent, num) <= config.nonMaxRetransmit ==>
            && Emit(Plan(config, count, |sent|), sent, [num]) == (sent, Some(Blocked))
            && Emit(Plan(config, count, |sent| + 1), sent, [num]) == (sent + [num], None)
  {
    hide Times;
    assert [num][1..] == [];
    var p := Plan(config, count, |sent| + 1);
    assert Emit(p, sent + [num], []) == (sent + [num], None);
  }

  /** Part of a list is sent; the exchange, wherever it stops later, has let that part through. */
  ghost predicate Follows(config: Config.Params, count: int, start: seq<int>, nums: seq<int>, sent: seq<int>, rest: seq<int>) {
    forall room: nat :: room >= |sent| ==>
      Emit(Plan(config, count, room), start, nums) == Emit(Plan(config, count, room), sent, rest)
  }

  lemma FollowsNext(config: Config.Params, count: int, start: seq<int>, nums: seq<int>, sent: seq<int>, rest: seq<int>)
    requires Follows(config, count, start, nums, sent, rest) && rest != []
    requires 0 <= rest[0] < count && Times(sent, rest[0]) <= config.nonMaxRetransmit
    ensures Follows(config, count, start, nums, sent + [rest[0]], rest[1..])
  {
    hide Times;
  }

  lemma FollowsToEnd(config: Config.Params, count: int, start: seq<int>, nums: seq<int>, sent: seq<int>, rest: seq<int>)
    requires Follows(config, count, start, nums, sent, rest)
    ensures rest == [] ==> Emit(Plan(config, count, |sent|), start, nums) == (sent, None)
    ensures rest != [] && Emit(Plan(config, count, |sent|), sent, [rest[0]]).1.Some? ==>
            Emit(Plan(config, count, |sent|), start, nums) == (sent, Emit(Plan(config, count, |sent|), sent, [rest[0]]).1)
  {
    hide Times;
    if rest != [] {
      EmitOne(config, count, sent, rest[0]);
    }
  }

  lemma SentWasSendable(config: Config.Params, count: int, sent: seq<int>, num: int)
    requires Emit(Plan(config, count, |sent| + 1), sent, [num]).1.None?
    ensures 0 <= num < count && Times(sent, num) <= config.nonMaxRetransmit
  {
    hide Times;
  }

  class Uploader {
    const config: Config.Params
    const sender: Sender
    const blockCount: int
    const exchange: Exchanges.Exchange
    const turns: nat -> Exchanges.Turn     // what the world does around each request
    var attempts: Attempts
    var next: int
    var retries: int
    var pendingRecovery: seq<int>
    var sent: seq<Arrival>

    /** Everything sent is a block of the body, each in a request of its own. */
    ghost predicate Sane()
      reads this, exchange, exchange.conn, exchange.conn.process
    {
      && sender.Valid() && |sender.body| == sender.bodySize && blockCount == sender.Shape().Count()
      && P().Valid() && exchange.Valid() && |sent| <= |exchange.tokens| <= |sent| + 1
      && IsDelivery(sender.Shape(), sender.body, sent)
    }

    ghost predicate Valid()
      reads this, exchange, exchange.conn, exchange.conn.process
    {
      && Sane() && 0 <= next <= blockCount && |exchange.tokens| == |sent|
      && (forall n :: Times(Nums(sent), n) == Tried(attempts, n))
    }

    /** The protocol, as far as the exchange has let it go. */
    function P(): Plan
      reads this`sent
    {
      Plan(config, blockCount, |sent|)
    }

    function S(): State
      reads this
    {
      State(Nums(sent), next, retries, pendingRecovery)
    }

    function Outcome(err: Option<Error>): Status
      reads this
    {
      if err.None? then Going(S()) else Failed(err.value, Nums(sent))
    }

    constructor (config: Config.Params, sender: Sender, exchange: Exchanges.Exchange, turns: nat -> Exchanges.Turn)
      requires Config.Resolved(config) && sender.Valid() && |sender.body| == sender.bodySize
      requires exchange.Valid() && exchange.tokens == []
      ensures Valid() && S() == State([], 0, 0, [])
      ensures this.config == config && this.sender == sender && this.exchange == exchange
    {
      CountForms(sender.Shape());
      Config.ResolveIsExact(config);
      this.config, this.sender, this.exchange, this.turns := config, sender, exchange, turns;
      blockCount := Max(1, (sender.bodySize + SzxSize(sender.szx) - 1) / SzxSize(sender.szx));
      attempts, next, retries, pendingRecovery, sent := map[], 0, 0, [], [];
    }

    /** One payload, unless the NUM is none of the body's, has used up its attempts, or gets no
        token or no passage. */
    method SendBlock(num: int) returns (err: Option<Error>)
      requires Valid()
      modifies this`attempts, this`sent, sender, exchange, exchange.conn, exchange.conn.process
      ensures Sane() && (err.None? ==> Valid())
      ensures Emit(P(), old(Nums(sent)), [num]) == (Nums(sent), err)
      ensures err.None? ==> Nums(sent) == old(Nums(sent)) + [num]
      ensures sent == if err.None? then old(sent) + [Sent(sender.Shape(), sender.body, num)] else old(sent)
    {
      hide Layout.Count, Layout.Block, Times, Emit, Nums, IsDelivery, Exchanges.Exchange.Valid;
      EmitOne(config, blockCount, Nums(sent), num);
      if num < 0 || num >= blockCount || Tried(attempts, num) > config.nonMaxRetransmit {
        return Some(Exhausted(num));
      }
      attempts := attempts[num := Tried(attempts, num) + 1];
      var part := sender.Block(num);
      if part.Err? {
        return Some(Unreadable);
      }
      var hindered := exchange.Request(turns(|sent|));
      if hindered.Some? {
        return Some(Blocked);
      }
      CountOne(sent, part.value);
      DeliveryNext(sender.Shape(), sender.body, sent, num);
      sent := sent + [part.value];
      return None;
    }

    /** A list of payloads in order, up to the first that cannot be sent. */
    method SendAll(nums: seq<int>) returns (err: Option<Error>)
      requires Valid()
      modifies this`attempts, this`sent, sender, exchange, exchange.conn, exchange.conn.process
      ensures Sane() && (err.None? ==> Valid()) && old(|sent|) <= |sent|
      ensures Emit(P(), old(Nums(sent)), nums) == (Nums(sent), err)
    {
      hide Layout.Count, Layout.Block, Times, Emit, Nums, Follows, IsDelivery, Exchanges.Exchange.Valid;
      ghost var start := Nums(sent);
      FollowsItself(config, blockCount, start, nums);
      for i := 0 to |nums|
        invariant Valid() && old(|sent|) <= |sent|
        invariant Follows(config, blockCount, start, nums, Nums(sent), nums[i..])
      {
        ghost var before := Nums(sent);
        err := SendBlock(nums[i]);
        if err.Some? {
          FollowsToEnd(config, blockCount, start, nums, before, nums[i..]);
          return;
        }
        SentWasSendable(config, blockCount, before, nums[i]);
        FollowsNext(config, blockCount, start, nums, before, nums[i..]);
        assert nums[i..][1..] == nums[i + 1..];
      }
      FollowsToEnd(config, blockCount, start, nums, Nums(sent), []);
      return None;
    }

    /** The next payload set, whole. */
    method SendSet() returns (err: Option<Error>)
      requires Valid() && next < blockCount
      modifies this, sender, exchange, exchange.conn, exchange.conn.process
      ensures Sane() && (err.None? ==> Valid()) && old(|sent|) <= |sent|
      ensures Outcome(err) == NextSet(P(), old(S()))
    {
      hide Layout.Count, Layout.Block, Times, Emit, Nums, IsDelivery, Exchanges.Exchange.Valid, SetLast, Range;
      var last := SetLast(config.maxPayloads, next, blockCount);
      SetLastBounds(config.maxPayloads, next, blockCount);
      var nums := AppendRange([], next, last);
      assert nums == Range(next, last + 1);
      next := last + 1;
      err := SendAll(nums);
    }

    method Timeout(contextDone: bool) returns (err: Option<Error>)
      requires Valid()
      modifies this, sender, exchange, exchange.conn, exchange.conn.process
      ensures Sane() && (err.None? ==> Valid()) && old(|sent|) <= |sent|
      ensures Outcome(err) == OnTimeout(P(), old(S()), contextDone)
    {
      hide Layout.Count, Layout.Block, Times, Emit, Nums, IsDelivery, Exchanges.Exchange.Valid, SetLast, Range;
      if contextDone {
        return Some(ContextDone);
      }
      if |pendingRecovery| > 0 {
        retries := retries + 1;
        err := SendAll(pendingRecovery);
      } else if next < blockCount {
        err := SendSet();
      } else if retries >= config.nonMaxRetransmit {
        return Some(FinalExhausted);
      } else {
        retries := retries + 1;
        err := SendAll([blockCount - 1]);
      }
    }

    /** `advance` says a new set was sent. */
    method Continuation(num: Option<int>) returns (advance: bool, err: Option<Error>)
      requires Valid()
      modifies this, sender, exchange, exchange.conn, exchange.conn.process
      ensures Sane() && (err.None? ==> Valid()) && old(|sent|) <= |sent|
      ensures Outcome(err) == OnContinue(P(), old(S()), num)
      ensures advance <==> err.Some? || next > old(next)
    {
      hide Layout.Count, Layout.Block, Times, Emit, Nums, IsDelivery, Exchanges.Exchange.Valid, SetLast, Range;
      if num.None? {
        return false, None;
      }
      var wasRecovering := |pendingRecovery| > 0;
      if wasRecovering && num.value >= pendingRecovery[|pendingRecovery| - 1] {
        pendingRecovery, retries := [], 0;
      }
      if wasRecovering && |pendingRecovery| == 0 && next < blockCount {
        return false, None;
      }
      if num.value != next - 1 || next >= blockCount {
        return false, None;
      }
      SetLastBounds(config.maxPayloads, next, blockCount);
      err := SendSet();
      return true, err;
    }

    method Missing(report: Option<seq<int>>) returns (err: Option<Error>)
      requires Valid()
      modifies this, sender, exchange, exchange.conn, exchange.conn.process
      ensures Sane() && (err.None? ==> Valid()) && old(|sent|) <= |sent|
      ensures Outcome(err) == OnReport(P(), old(S()), report)
    {
      hide Layout.Count, Layout.Block, Times, Emit, Nums, IsDelivery, Exchanges.Exchange.Valid, SetLast, Range;
      if report.None? || |report.value| > MAX_TRACKED {
        return Some(BadReport);
      }
      pendingRecovery := MissingSetOf(report.value, config.maxPayloads);
      err := SendAll(pendingRecovery);
    }

    /** One turn of the receive loop. */
    method React(e: Event) returns (r: Status)
      requires Valid()
      modifies this, sender, exchange, exchange.conn, exchange.conn.process
      ensures Sane() && (r.Going? ==> Valid() && r.state == S()) && SentBy(r) == Nums(sent) && old(|sent|) <= |sent|
      ensures r == Step(P(), old(S()), e)
    {
      hide Layout.Count, Nums, IsDelivery, Exchanges.Exchange.Valid, OnTimeout, OnContinue, OnReport;
      match e {
        case Expires(contextDone) =>
          var err := Timeout(contextDone);
          r := Outcome(err);
        case Continue(num) =>
          var _, err := Continuation(num);
          r := Outcome(err);
        case Reports(report) =>
          var err := Missing(report);
          r := Outcome(err);
        case Final =>
          r := Answered(Nums(sent));
      }
    }

    /** The first payload set, and then whatever comes. */
    method Go(events: seq<Event>) returns (r: Status)
      requires Valid() && S() == State([], 0, 0, [])
      modifies this, sender, exchange, exchange.conn, exchange.conn.process
      ensures Sane() && SentBy(r) == Nums(sent) && r == Run(P(), events)
    {
      hide Layout.Count, Nums, IsDelivery, Exchanges.Exchange.Valid, Step, NextSet, Run;
      var err := SendSet();
      r := Outcome(err);
      RunOfNone(P());
      assert events[..0] == [];
      var used := 0;
      while used < |events| && r.Going?
        invariant used <= |events| && Sane() && (r.Going? ==> Valid() && r.state == S()) && SentBy(r) == Nums(sent)
        invariant r == Run(P(), events[..used])
        decreases |events| - used
      {
        ghost var p := P();
        r := React(events[used]);
        MoreRoom(p, |sent|, events[..used]);
        RunNext(P(), events[..used], events[used]);
        assert events[..used + 1] == events[..used] + [events[used]];
        used := used + 1;
      }
      if r.Going? {
        assert events[..used] == events;
      } else {
        RunStops(P(), events, used);
      }
    }
  }

  lemma FollowsItself(config: Config.Params, count: int, start: seq<int>, nums: seq<int>)
    ensures Follows(config, count, start, nums, start, nums[0..])
  {
    assert nums[0..] == nums;
  }

  lemma {:induction false} MoreRoomEmits(p: Plan, room: nat, sent: seq<int>, nums: seq<int>)
    requires p.room <= room && Emit(p, sent, nums).1.None?
    ensures Emit(p.(room := room), sent, nums) == Emit(p, sent, nums)
    decreases |nums|
  {
    hide Times;
    if nums != [] {
      MoreRoomEmits(p, room, sent + [nums[0]], nums[1..]);
    }
  }

  lemma MoreRoomResumes(p: Plan, room: nat, s: State, nums: seq<int>)
    requires p.room <= room
    ensures Resume(p, s, nums).Going? ==> Resume(p.(room := room), s, nums) == Resume(p, s, nums)
  {
    hide Emit;
    if Resume(p, s, nums).Going? {
      MoreRoomEmits(p, room, s.sent, nums);
    }
  }

  lemma MoreRoomSteps(p: Plan, room: nat, s: State, e: Event)
    requires p.Valid() && p.room <= room && 0 <= s.next <= p.count && Step(p, s, e).Going?
    ensures Step(p.(room := room), s, e) == Step(p, s, e)
  {
    hide Resume, SetLast, Range;
    var retry := s.(retries := s.retries + 1);
    match e
    case Expires(_) =>
      if s.pending != [] {
        MoreRoomResumes(p, room, retry, s.pending);
      } else if s.next < p.count {
        MoreRoomSets(p, room, s);
      } else {
        MoreRoomResumes(p, room, retry, [p.count - 1]);
      }
    case Continue(_) =>
      if s.next < p.count {
        MoreRoomSets(p, room, s);
      }
    case Reports(report) =>
      var first := SameSet(report.value, p.config.maxPayloads);
      MoreRoomResumes(p, room, s.(pending := first), first);
    case Final =>
  }

  lemma MoreRoomSets(p: Plan, room: nat, s: State)
    requires p.Valid() && p.room <= room && 0 <= s.next < p.count
    ensures NextSet(p, s).Going? ==> NextSet(p.(room := room), s) == NextSet(p, s)
  {
    hide Resume, SetLast, Range;
    var last := SetLast(p.config.maxPayloads, s.next, p.count);
    MoreRoomResumes(p, room, s.(next := last + 1), Range(s.next, last + 1));
  }

  /** A run that is still going goes the same way when the exchange would let more through. */
  lemma {:induction false} MoreRoom(p: Plan, room: nat, events: seq<Event>)
    requires p.Valid() && p.room <= room && Run(p, events).Going?
    ensures Run(p.(room := room), events) == Run(p, events)
    decreases |events|
  {
    hide Step, NextSet;
    if events == [] {
      MoreRoomSets(p, room, State([], 0, 0, []));
    } else {
      MoreRoom(p, room, events[..|events| - 1]);
      MoreRoomSteps(p, room, Run(p, events[..|events| - 1]).state, events[|events| - 1]);
    }
  }

  /** A run that has ended stays so. */
  lemma {:induction false} RunStops(p: Plan, events: seq<Event>, n: nat)
    requires p.Valid() && n <= |events| && !Run(p, events[..n]).Going?
    ensures Run(p, events) == Run(p, events[..n])
    decreases |events|
  {
    hide Step, NextSet;
    if n == |events| {
      assert events[..n] == events;
    } else {
      assert events[..|events| - 1][..n] == events[..n];
      RunStops(p, events[..|events| - 1], n);
    }
  }

  /** A whole upload, against any server and on any connection. It runs as the protocol says, as far
      as the exchange lets it. Everything sent is a block of the body. Only the first request carries
      the caller's token; every later one has a token of its own, which was routed nowhere on the
      connection when it was drawn. */
  method Upload(config: Config.Params, body: seq<byte>, szx: nat, history: seq<Routes.Op>, ctxDone: bool,
                token: Routes.Token, turns: nat -> Exchanges.Turn, events: seq<Event>)
    returns (status: Option<Status>, sent: seq<Arrival>, tokens: seq<Routes.Token>, routed: seq<set<Routes.Token>>)
    requires Config.Resolved(config) && szx <= MAX_SZX && Layout(SzxSize(szx), |body|).Count() <= MAX_NUM + 1
    ensures IsDelivery(Layout(SzxSize(szx), |body|), body, sent)
    ensures var p := Plan(config, Layout(SzxSize(szx), |body|).Count(), |sent|);
            && p.Valid() && Allowed(p, Nums(sent))
            && if status.Some? then status.value == Run(p, events) && Nums(sent) == SentBy(status.value) else sent == []
    ensures Exchanges.Drawn(token, tokens, routed) && |sent| <= |tokens| <= |sent| + 1
  {
    hide Layout.Count, Layout.Block, Config.Resolved, Config.Resolve, IsDelivery, Run, Times, Exchanges.Drawn, Allowed;
    NothingYet(config, token, Layout(SzxSize(szx), |body|), body);
    var exchange := Exchanges.OpenExchange(history, ctxDone, token);
    if exchange.None? {
      return None, [], [], [];
    }
    var sender := new Sender(body, szx, |body|);
    var s := new Uploader(config, sender, exchange.value, turns);
    var r := s.Go(events);
    EveryRun(s.P(), events);
    return Some(r), s.sent, s.exchange.tokens, s.exchange.routed;
  }

  lemma NothingYet(config: Config.Params, token: Routes.Token, l: Layout, body: seq<byte>)
    requires Config.Resolved(config) && l.Valid() && |body| == l.size
    ensures IsDelivery(l, body, []) && Nums([]) == [] && Exchanges.Drawn(token, [], [])
    ensures Plan(config, l.Count(), 0).Valid() && Allowed(Plan(config, l.Count(), 0), [])
  {
    Config.ResolveIsExact(config);
  }

  lemma RunOfNone(p: Plan)
    requires p.Valid()
    ensures Run(p, []) == NextSet(p, State([], 0, 0, []))
  {
  }
}
