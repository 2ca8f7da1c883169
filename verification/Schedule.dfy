/** The server's Q-Block2 sender: which blocks a request asks for, and the chain of jobs that
    sends a body one payload set at a time. Other threads may replace the body, pause the chain
    or make it fail between any two payloads. */
module Schedule {
  import opened Base
  import opened Transfer
  import opened QCodec

  /** lo, lo + 1, ..., hi - 1. */
  function Range(lo: int, hi: int): (nums: seq<int>)
    ensures |nums| == Max(0, hi - lo)
    ensures forall i :: 0 <= i < |nums| ==> nums[i] == lo + i
    decreases Max(0, hi - lo)
  {
    if hi <= lo then [] else Range(lo, hi - 1) + [hi - 1]
  }

  lemma RangeJoins(lo: int, mid: int, hi: int)
    requires lo <= mid <= hi
    ensures Range(lo, mid) + Range(mid, hi) == Range(lo, hi)
  {
  }

  // ---------------------------------------------------------------- what a request asks for

  predicate Acceptable(o: Option<nat>, szx: nat, count: int, previous: int) {
    && o.Some? && DecodeOption(o.value).Ok?
    && var r := DecodeOption(o.value).value;
       r.szx == szx && previous < r.num < count
  }

  /** NUM of the option before option `i`. */
  function NumBefore(options: seq<Option<nat>>, i: nat): (num: int)
    requires i <= |options|
  {
    if i == 0 || options[i - 1].None? || DecodeOption(options[i - 1].value).Err? then -1
    else DecodeOption(options[i - 1].value).value.num
  }

  /** The last NUM an option asks for: with the more bit, the rest of its payload set. */
  function LastOf(r: BlockRef, maxPayloads: int, count: int): int
    requires 0 < maxPayloads
  {
    if r.more then SetLast(maxPayloads, r.num, count) else r.num
  }

  ghost predicate AllAcceptable(options: seq<Option<nat>>, szx: nat, count: int) {
    && (forall i :: 0 <= i < |options| ==> Acceptable(options[i], szx, count, -1))
    && forall i, j :: 0 <= i < j < |options| ==>
         DecodeOption(options[i].value).value.num < DecodeOption(options[j].value).value.num
  }

  ghost predicate Asks(options: seq<Option<nat>>, maxPayloads: int, count: int, n: int)
    requires 0 < maxPayloads
  {
    exists i :: 0 <= i < |options| && options[i].Some? && DecodeOption(options[i].value).Ok?
      && DecodeOption(options[i].value).value.num <= n <= LastOf(DecodeOption(options[i].value).value, maxPayloads, count)
  }

  /** The NUMs are exactly those the options ask for. */
  ghost predicate Covers(nums: seq<int>, options: seq<Option<nat>>, maxPayloads: int, count: int)
    requires 0 < maxPayloads
  {
    forall n :: n in nums <==> Asks(options, maxPayloads, count, n)
  }

  /** With the more bit and at the start of a payload set, an option means the rest of the body. */
  predicate OpensSet(o: Option<nat>, maxPayloads: int)
    requires 0 < maxPayloads && o.Some? && DecodeOption(o.value).Ok?
  {
    DecodeOption(o.value).value.more && DecodeOption(o.value).value.num % maxPayloads == 0
  }

  /** No NUM is left out from `lo` to the last one. */
  ghost predicate Full(nums: seq<int>, lo: int)
    requires nums != []
  {
    forall n :: lo <= n <= nums[|nums| - 1] ==> n in nums
  }

  datatype Requested = Refused | Blocks(nums: seq<int>, wholeBody: bool)

  method AppendRange(nums: seq<int>, from: int, last: int) returns (r: seq<int>)
    ensures r == nums + Range(if nums == [] then from else Max(from, nums[|nums| - 1] + 1), last + 1)
  {
    var first := from;
    if |nums| > 0 {
      first := Max(first, nums[|nums| - 1] + 1);
    }
    r := nums;
    var num := first;
    while num <= last
      invariant first <= num && (num <= last + 1 || num == first)
      invariant r == nums + Range(first, num)
      decreases last + 1 - num
    {
      r := r + [num];
      num := num + 1;
    }
    if num == first {
      assert Range(first, last + 1) == [];
    }
  }

  lemma SetLastBounds(maxPayloads: int, num: int, count: int)
    requires 0 < maxPayloads && 0 <= num < count
    ensures num <= SetLast(maxPayloads, num, count) < count
    ensures forall n :: num <= n <= SetLast(maxPayloads, num, count) ==> n / maxPayloads == num / maxPayloads
    ensures SetLast(maxPayloads, num, count) + 1 < count ==>
            (SetLast(maxPayloads, num, count) + 1) / maxPayloads == num / maxPayloads + 1
  {
    DivBounds(num, maxPayloads);
    forall n | num <= n <= SetLast(maxPayloads, num, count)
      ensures n / maxPayloads == num / maxPayloads
    {
      DivUnique(n, maxPayloads, num / maxPayloads);
    }
    var next := SetLast(maxPayloads, num, count) + 1;
    if next < count {
      DivUnique(next, maxPayloads, num / maxPayloads + 1);
    }
  }

  lemma LastOfBounds(o: Option<nat>, maxPayloads: int, count: int)
    requires 0 < maxPayloads && o.Some? && DecodeOption(o.value).Ok?
    requires 0 <= DecodeOption(o.value).value.num < count
    ensures var r := DecodeOption(o.value).value;
            && r.num <= LastOf(r, maxPayloads, count) < count
            && (OpensSet(o, maxPayloads) ==> LastOf(r, maxPayloads, count) == SetLast(maxPayloads, r.num, count))
  {
    hide DecodeOption, SetLast;
    SetLastBounds(maxPayloads, DecodeOption(o.value).value.num, count);
  }

  /** The request is read as the exact union of its options, ascending, each NUM once; it asks for
      the whole rest of the body when its only option, with the more bit, starts a payload set. */
  method RequestedBlocks(options: seq<Option<nat>>, szx: nat, count: int, maxPayloads: int) returns (r: Requested)
    requires 0 < maxPayloads
    ensures r.Blocks? <==> AllAcceptable(options, szx, count)
    ensures r.Blocks? ==> Increasing(r.nums) && Covers(r.nums, options, maxPayloads, count)
    ensures r.Blocks? ==> forall n :: n in r.nums ==> 0 <= n < count
    ensures r.Blocks? && r.wholeBody ==>
            |options| == 1 && r.nums != [] && r.nums == Range(r.nums[0], SetLast(maxPayloads, r.nums[0], count) + 1)
    ensures r.Blocks? && r.wholeBody <==>
            |options| == 1 && Acceptable(options[0], szx, count, -1) && OpensSet(options[0], maxPayloads)
  {
    hide DecodeOption, SetLast, Covers, AllAcceptable, Range, Increasing, OpensSet, LastOf, Full;
    NothingAsked(options, szx, count, maxPayloads);
    var nums, previous, wholeBody := [], -1, false;
    for i := 0 to |options|
      invariant AllAcceptable(options[..i], szx, count)
      invariant previous == NumBefore(options, i) && -1 <= previous
      invariant if i == 0 then nums == [] else nums != [] && 0 <= previous <= nums[|nums| - 1]
      invariant Increasing(nums) && forall n :: n in nums ==> 0 <= n < count
      invariant Covers(nums, options[..i], maxPayloads, count)
      invariant i > 0 ==> Full(nums, previous)
      invariant wholeBody <==> i == 1 == |options| && Acceptable(options[0], szx, count, -1) && OpensSet(options[0], maxPayloads)
      invariant wholeBody ==> nums == Range(previous, SetLast(maxPayloads, previous, count) + 1)
    {
      if !Acceptable(options[i], szx, count, previous) {
        NotAcceptable(options, i, szx, count);
        return Refused;
      }
      nums, previous := TakeOption(options, i, szx, count, maxPayloads, nums);
      if OpensSet(options[i], maxPayloads) && |options| == 1 {
        wholeBody := true;
      }
    }
    assert options[..|options|] == options;
    if |options| > 0 {
      FirstAcceptable(options, szx, count);
    }
    return Blocks(nums, wholeBody);
  }

  /** One acceptable option: its NUMs are added behind those there are. */
  method TakeOption(options: seq<Option<nat>>, i: nat, szx: nat, count: int, maxPayloads: int, before: seq<int>)
    returns (nums: seq<int>, previous: int)
    requires 0 < maxPayloads && i < |options| && AllAcceptable(options[..i], szx, count)
    requires Acceptable(options[i], szx, count, NumBefore(options, i)) && -1 <= NumBefore(options, i)
    requires Increasing(before) && Covers(before, options[..i], maxPayloads, count)
    requires forall n :: n in before ==> 0 <= n < count
    requires if i == 0 then before == [] else before != [] && 0 <= NumBefore(options, i) <= before[|before| - 1]
    requires i > 0 ==> Full(before, NumBefore(options, i))
    ensures AllAcceptable(options[..i + 1], szx, count) && Increasing(nums) && Covers(nums, options[..i + 1], maxPayloads, count)
    ensures previous == NumBefore(options, i + 1) && nums != [] && 0 <= previous <= nums[|nums| - 1]
    ensures forall n :: n in nums ==> 0 <= n < count
    ensures Full(nums, previous)
    ensures i == 0 && OpensSet(options[0], maxPayloads) ==> nums == Range(previous, SetLast(maxPayloads, previous, count) + 1)
  {
    hide DecodeOption, SetLast, Covers, AllAcceptable, Range, Increasing, OpensSet, LastOf, Full;
    var ref := DecodeOption(options[i].value).value;
    previous := ref.num;
    var last := LastOf(ref, maxPayloads, count);
    LastOfBounds(options[i], maxPayloads, count);
    nums := AppendRange(before, ref.num, last);
    assert before == [] ==> before + Range(ref.num, last + 1) == Range(ref.num, last + 1);
    Extends(before, NumBefore(options, i), ref.num, last, nums);
    AsksMore(options, i, maxPayloads, count, before, nums);
    AcceptableNext(options, i, szx, count);
  }

  lemma NothingAsked(options: seq<Option<nat>>, szx: nat, count: int, maxPayloads: int)
    requires 0 < maxPayloads
    ensures AllAcceptable(options[..0], szx, count)
    ensures Covers([], options[..0], maxPayloads, count) && Increasing([])
  {
  }

  lemma AcceptableNext(options: seq<Option<nat>>, i: nat, szx: nat, count: int)
    requires i < |options| && AllAcceptable(options[..i], szx, count)
    requires Acceptable(options[i], szx, count, NumBefore(options, i))
    ensures AllAcceptable(options[..i + 1], szx, count)
  {
    hide DecodeOption;
    var longer := options[..i + 1];
    assert forall j :: 0 <= j < i ==> longer[j] == options[..i][j];
    if i > 0 {
      assert Acceptable(options[..i][i - 1], szx, count, -1);
    }
  }

  lemma FirstAcceptable(options: seq<Option<nat>>, szx: nat, count: int)
    requires AllAcceptable(options, szx, count) && options != []
    ensures Acceptable(options[0], szx, count, -1)
  {
  }

  lemma NotAcceptable(options: seq<Option<nat>>, i: nat, szx: nat, count: int)
    requires i < |options| && AllAcceptable(options[..i], szx, count)
    requires !Acceptable(options[i], szx, count, NumBefore(options, i))
    ensures !AllAcceptable(options, szx, count)
  {
  }

  lemma Extends(before: seq<int>, previous: int, num: int, last: int, nums: seq<int>)
    requires Increasing(before) && num <= last
    requires before != [] ==> num > 0 && Full(before, previous) && previous <= num
    requires nums == before + Range(if before == [] then num else Max(num, before[|before| - 1] + 1), last + 1)
    ensures nums != [] && num <= nums[|nums| - 1] && Increasing(nums)
    ensures forall n :: n in nums <==> n in before || num <= n <= last
    ensures Full(nums, num)
  {
    var from := if before == [] then num else Max(num, before[|before| - 1] + 1);
    var added := Range(from, last + 1);
    forall n | num <= n <= last
      ensures n in nums
    {
      if n >= from {
        assert added[n - from] == n;
      }
    }
    forall n | n in nums
      ensures n in before || num <= n <= last
    {
    }
    if added == [] {
      assert nums == before;
    } else {
      assert nums[|nums| - 1] == last;
    }
  }

  lemma AsksMore(options: seq<Option<nat>>, i: nat, maxPayloads: int, count: int, before: seq<int>, nums: seq<int>)
    requires 0 < maxPayloads && i < |options| && options[i].Some? && DecodeOption(options[i].value).Ok?
    requires Covers(before, options[..i], maxPayloads, count)
    requires var r := DecodeOption(options[i].value).value;
             forall n :: n in nums <==> n in before || r.num <= n <= LastOf(r, maxPayloads, count)
    ensures Covers(nums, options[..i + 1], maxPayloads, count)
  {
    hide DecodeOption, LastOf;
    var prefix, longer := options[..i], options[..i + 1];
    assert forall j :: 0 <= j < i ==> longer[j] == prefix[j];
    forall n
      ensures n in nums <==> Asks(longer, maxPayloads, count, n)
    {
      assert longer[i] == options[i];
      assert n in before <==> Asks(prefix, maxPayloads, count, n);
    }
  }

  // ---------------------------------------------------------------- jobs

  /** A scheduled stretch of a response: NUMs to send, then, for a whole body, all that follow. */
  datatype Job = Job(nums: seq<int>, count: int, wholeBody: bool, recovery: bool, confirmable: bool)

  /** Everything a job and the jobs after it are to send, in order. */
  ghost function Todo(j: Job): seq<int> {
    j.nums + if j.wholeBody && j.nums != [] then Range(j.nums[|j.nums| - 1] + 1, j.count) else []
  }

  ghost function TodoOf(j: Option<Job>): seq<int> {
    if j.None? then [] else Todo(j.value)
  }

  ghost predicate InOneSet(nums: seq<int>, maxPayloads: int)
    requires 0 < maxPayloads
  {
    forall i, j :: 0 <= i < |nums| && 0 <= j < |nums| ==> nums[i] / maxPayloads == nums[j] / maxPayloads
  }

  /** What a job finds when it is about to send: nothing in the way, another body in place of its
      own, a pause for recovery traffic, its body expired, or a send that fails. */
  datatype Glimpse = Clear | Stale | Paused | Missing | Broken

  datatype After = Ended | Stopped | Next(job: Job)

  method SetEnd(nums: seq<int>, maxPayloads: int) returns (end: nat)
    requires 0 < maxPayloads && nums != []
    ensures 0 < end <= |nums| && InOneSet(nums[..end], maxPayloads)
    ensures end < |nums| ==> nums[end] / maxPayloads != nums[0] / maxPayloads
  {
    end := 0;
    while end < |nums|
      invariant end <= |nums| && forall i :: 0 <= i < end ==> nums[i] / maxPayloads == nums[0] / maxPayloads
    {
      if nums[end] / maxPayloads != nums[0] / maxPayloads {
        return;
      }
      end := end + 1;
    }
  }

  /** The job after `end` NUMs have been sent; nothing to be sent is dropped or repeated. */
  method Following(job: Job, end: nat, maxPayloads: int) returns (after: After)
    requires 0 < maxPayloads && 0 < end <= |job.nums| && job.nums[|job.nums| - 1] >= -1
    ensures after.Ended? || (after.Next? && after.job == job.(nums := after.job.nums) && after.job.nums != [])
    ensures Todo(job) == job.nums[..end] + if after.Ended? then [] else Todo(after.job)
    ensures after.Next? ==> after.job.nums[|after.job.nums| - 1] >= -1
    ensures after.Next? && end == |job.nums| ==> InOneSet(after.job.nums, maxPayloads)
  {
    hide Todo, SetLast, Range, InOneSet;
    if end < |job.nums| {
      TodoLater(job, end);
      return Next(job.(nums := job.nums[end..]));
    }
    assert job.nums[..end] == job.nums;
    var next := job.nums[|job.nums| - 1] + 1;
    if !job.wholeBody || next >= job.count {
      TodoEnds(job);
      return Ended;
    }
    var last := SetLast(maxPayloads, next, job.count);
    var following := AppendRange([], next, last);
    TodoGoesOn(job, maxPayloads);
    assert following == Range(next, last + 1);
    return Next(job.(nums := following));
  }

  lemma TodoOfNothing(job: Job)
    requires job.nums == []
    ensures Todo(job) == []
  {
  }

  lemma TodoLater(job: Job, end: nat)
    requires 0 < end < |job.nums|
    ensures Todo(job) == job.nums[..end] + Todo(job.(nums := job.nums[end..]))
  {
    hide Range;
    assert job.nums == job.nums[..end] + job.nums[end..];
  }

  lemma TodoEnds(job: Job)
    requires job.nums != [] && (!job.wholeBody || job.nums[|job.nums| - 1] + 1 >= job.count)
    ensures Todo(job) == job.nums
  {
  }

  lemma TodoGoesOn(job: Job, maxPayloads: int)
    requires 0 < maxPayloads && job.wholeBody && job.nums != [] && -1 <= job.nums[|job.nums| - 1] < job.count - 1
    ensures var next := job.nums[|job.nums| - 1] + 1;
            var following := Range(next, SetLast(maxPayloads, next, job.count) + 1);
            && following != [] && next <= following[|following| - 1] && InOneSet(following, maxPayloads)
            && Todo(job) == job.nums + Todo(job.(nums := following))
  {
    hide SetLast, Range;
    var next := job.nums[|job.nums| - 1] + 1;
    var last := SetLast(maxPayloads, next, job.count);
    SetLastBounds(maxPayloads, next, job.count);
    RangeJoins(next, last + 1, job.count);
    assert Range(next, last + 1)[last - next] == last;
  }

  /** One turn of a job, whatever it finds before each payload. It sends a stretch of its NUMs
      within one payload set, and unless it stops for good, what it has sent and what is left to
      the next job are together what it had to send. */
  method RunJob(job: Job, maxPayloads: int, async: bool, glimpses: nat -> Glimpse, currentAfter: bool)
    returns (sent: seq<int>, after: After)
    requires 0 < maxPayloads && (job.nums != [] ==> job.nums[|job.nums| - 1] >= -1)
    ensures sent <= job.nums && InOneSet(sent, maxPayloads)
    ensures after.Next? ==> after.job.nums != [] && after.job == job.(nums := after.job.nums)
                            && after.job.nums[|after.job.nums| - 1] >= -1
    ensures after.Ended? ==> Todo(job) == sent
    ensures after.Next? ==> Todo(job) == sent + Todo(after.job)
    ensures currentAfter && (forall i :: glimpses(i) == Clear) ==> !after.Stopped? && (job.nums != [] ==> sent != [])
  {
    hide Todo, SetLast, Range;
    if |job.nums| == 0 {
      TodoOfNothing(job);
      return [], Ended;
    }
    if async && job.confirmable {
      if glimpses(0) != Clear && glimpses(0) != Paused {
        return [], Stopped;
      }
      sent := [job.nums[0]];
      if !currentAfter {
        return sent, Stopped;
      }
      after := Following(job, 1, maxPayloads);
      return;
    }
    var end := SetEnd(job.nums, maxPayloads);
    sent := [];
    for i := 0 to end
      invariant sent == job.nums[..i]
    {
      match glimpses(i) {
        case Stale => return sent, Stopped;
        case Missing => return sent, Stopped;
        case Broken => return sent, Stopped;
        case Paused =>
          if job.wholeBody && !job.confirmable {
            if i > 0 {
              TodoLater(job, i);
            } else {
              assert job.nums[0..] == job.nums && [] + Todo(job) == Todo(job);
            }
            return sent, Next(job.(nums := job.nums[i..]));
          }
          sent := sent + [job.nums[i]];
        case Clear => sent := sent + [job.nums[i]];
      }
    }
    if !currentAfter {
      return sent, Stopped;
    }
    after := Following(job, end, maxPayloads);
  }

  // ---------------------------------------------------------------- whole responses

  /** All that a request is answered with. */
  ghost function Goal(nums: seq<int>, wholeBody: bool, count: int): seq<int>
    requires nums != []
  {
    if wholeBody then Range(nums[0], count) else nums
  }

  /** The job behind the first payload, which answers the request itself. */
  method Continuation(nums: seq<int>, count: int, wholeBody: bool, confirmable: bool, maxPayloads: int)
    returns (job: Option<Job>)
    requires 0 < maxPayloads && nums != [] && forall i :: 0 <= i < |nums| ==> 0 <= nums[i] < count
    requires wholeBody ==> nums == Range(nums[0], SetLast(maxPayloads, nums[0], count) + 1)
    ensures Goal(nums, wholeBody, count) == [nums[0]] + TodoOf(job)
    ensures job.Some? ==> job.value == Job(job.value.nums, count, wholeBody, !wholeBody, confirmable)
                          && job.value.nums != [] && job.value.nums[|job.value.nums| - 1] >= 0
  {
    hide Todo, SetLast, Range;
    if |nums| <= 1 && (!wholeBody || nums[|nums| - 1] + 1 >= count) {
      NothingFollows(nums, wholeBody, count);
      return None;
    }
    var remaining := nums[1..];
    if |remaining| == 0 && wholeBody {
      var next := nums[0] + 1;
      remaining := AppendRange(remaining, next, SetLast(maxPayloads, next, count));
      TodoGoesOn(Job(nums, count, wholeBody, !wholeBody, confirmable), maxPayloads);
      assert remaining == Range(next, SetLast(maxPayloads, next, count) + 1);
    } else {
      TodoLater(Job(nums, count, wholeBody, !wholeBody, confirmable), 1);
    }
    GoalIsTodo(Job(nums, count, wholeBody, !wholeBody, confirmable), maxPayloads);
    return Some(Job(remaining, count, wholeBody, !wholeBody, confirmable));
  }

  lemma NothingFollows(nums: seq<int>, wholeBody: bool, count: int)
    requires |nums| == 1 && (!wholeBody || nums[0] == count - 1)
    ensures Goal(nums, wholeBody, count) == [nums[0]]
  {
  }

  lemma GoalIsTodo(job: Job, maxPayloads: int)
    requires 0 < maxPayloads && job.nums != [] && 0 <= job.nums[0] < job.count
    requires job.wholeBody ==> job.nums == Range(job.nums[0], SetLast(maxPayloads, job.nums[0], job.count) + 1)
    ensures Todo(job) == Goal(job.nums, job.wholeBody, job.count)
    ensures |job.nums| == 1 ==> job.nums[..1] == job.nums == [job.nums[0]]
  {
    hide SetLast, Range;
    if job.wholeBody {
      var last := SetLast(maxPayloads, job.nums[0], job.count);
      SetLastBounds(maxPayloads, job.nums[0], job.count);
      RangeJoins(job.nums[0], last + 1, job.count);
    }
  }

  /** What other threads do to one turn of the chain. */
  datatype Turn = Turn(glimpses: nat -> Glimpse, currentAfter: bool)

  ghost predicate Undisturbed(turns: seq<Turn>) {
    forall i :: 0 <= i < |turns| ==> turns[i].currentAfter && forall k :: turns[i].glimpses(k) == Clear
  }

  /** A whole response under any disturbance. The payloads go out in order, each once, the first
      with the response and the rest in batches that never cross a payload set. A chain that ends
      has sent everything; one that goes on has exactly the rest before it; and left alone, it ends. */
  method Respond(nums: seq<int>, count: int, wholeBody: bool, confirmable: bool, async: bool, maxPayloads: int,
                 turns: seq<Turn>)
    returns (sent: seq<int>, batches: seq<seq<int>>, after: After)
    requires 0 < maxPayloads && nums != [] && forall i :: 0 <= i < |nums| ==> 0 <= nums[i] < count
    requires wholeBody ==> nums == Range(nums[0], SetLast(maxPayloads, nums[0], count) + 1)
    ensures sent == [nums[0]] + Flatten(batches)
    ensures forall i :: 0 <= i < |batches| ==> InOneSet(batches[i], maxPayloads)
    ensures sent <= Goal(nums, wholeBody, count)
    ensures after.Ended? ==> sent == Goal(nums, wholeBody, count)
    ensures after.Next? ==> sent + Todo(after.job) == Goal(nums, wholeBody, count)
    ensures Undisturbed(turns) && |turns| >= |Goal(nums, wholeBody, count)| ==> after.Ended?
  {
    hide Todo, SetLast, Range, InOneSet, Goal, Flatten;
    FlattenNone();
    var first := Continuation(nums, count, wholeBody, confirmable, maxPayloads);
    sent, batches := [nums[0]], [];
    after := if first.None? then Ended else Next(first.value);
    ghost var goal := Goal(nums, wholeBody, count);
    ghost var left := TodoOf(first);
    var i := 0;
    while i < |turns| && after.Next?
      invariant 0 <= i <= |turns|
      invariant after.Next? ==> after.job.nums != [] && after.job.nums[|after.job.nums| - 1] >= -1 && left == Todo(after.job)
      invariant goal == sent + left && sent == [nums[0]] + Flatten(batches)
      invariant forall k :: 0 <= k < |batches| ==> InOneSet(batches[k], maxPayloads)
      invariant after.Ended? ==> left == []
      invariant Undisturbed(turns) ==> !after.Stopped? && (after.Next? ==> |sent| >= i + 1)
      decreases |turns| - i
    {
      var some, next := RunJob(after.job, maxPayloads, async, turns[i].glimpses, turns[i].currentAfter);
      BatchAdds(batches, some, sent, [nums[0]]);
      left := TakeAway(after.job, some, next, left);
      assert goal == (sent + some) + left;
      sent, batches, after := sent + some, batches + [some], next;
      i := i + 1;
    }
    if after.Next? {
      NotAllSent(after.job);
    }
  }

  lemma FlattenNone()
    ensures Flatten<int>([]) == []
  {
  }

  lemma TakeAway(job: Job, some: seq<int>, next: After, left: seq<int>) returns (rest: seq<int>)
    requires left == Todo(job) && some <= job.nums
    requires next.Ended? ==> left == some
    requires next.Next? ==> left == some + Todo(next.job)
    ensures left == some + rest
    ensures next.Ended? ==> rest == []
    ensures next.Next? ==> rest == Todo(next.job)
  {
    rest := left[|some|..];
    assert left == some + rest;
  }

  lemma BatchAdds(batches: seq<seq<int>>, some: seq<int>, sent: seq<int>, head: seq<int>)
    requires sent == head + Flatten(batches)
    ensures sent + some == head + Flatten(batches + [some])
  {
    assert (batches + [some])[..|batches|] == batches;
  }

  lemma NotAllSent(job: Job)
    requires job.nums != []
    ensures |Todo(job)| > 0
  {
  }
}
