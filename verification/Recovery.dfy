/** Recovery of lost blocks: the receiver reports the gaps of its earliest incomplete
    payload set, the report crosses the wire, and the sender repeats exactly those blocks. */
module Recovery {
  import opened Base
  import opened Transfer
  import opened Delivery
  import opened QCodec

  /** The leading run of NUMs that share a payload set with the first. */
  function SameSet(nums: seq<int>, maxPayloads: int): (head: seq<int>)
    requires 0 < maxPayloads
  {
    if nums == [] then [] else Within(nums, maxPayloads, nums[0] / maxPayloads)
  }

  function Within(nums: seq<int>, maxPayloads: int, payloadSet: int): (head: seq<int>)
    requires 0 < maxPayloads
  {
    if nums == [] || nums[0] / maxPayloads != payloadSet then []
    else [nums[0]] + Within(nums[1..], maxPayloads, payloadSet)
  }

  /** `qMissingSet`: keeps a report to one payload set. */
  method MissingSetOf(missing: seq<int>, maxPayloads: int) returns (nums: seq<int>)
    requires 0 < maxPayloads
    ensures nums == SameSet(missing, maxPayloads)
  {
    if |missing| == 0 {
      return [];
    }
    var payloadSet := missing[0] / maxPayloads;
    nums := [];
    var i := 0;
    while i < |missing| && missing[i] / maxPayloads == payloadSet
      invariant 0 <= i <= |missing| && nums == missing[..i]
      invariant Within(missing, maxPayloads, payloadSet) == nums + Within(missing[i..], maxPayloads, payloadSet)
    {
      nums := nums + [missing[i]];
      i := i + 1;
    }
  }

  lemma {:induction false} WithinIsPrefix(nums: seq<int>, maxPayloads: int, payloadSet: int)
    requires 0 < maxPayloads
    ensures Within(nums, maxPayloads, payloadSet) <= nums
    ensures forall n :: n in Within(nums, maxPayloads, payloadSet) ==> n / maxPayloads == payloadSet
    ensures (forall i :: 0 <= i < |nums| ==> nums[i] / maxPayloads == payloadSet)
              ==> Within(nums, maxPayloads, payloadSet) == nums
    decreases |nums|
  {
    if nums != [] && nums[0] / maxPayloads == payloadSet {
      WithinIsPrefix(nums[1..], maxPayloads, payloadSet);
      assert forall i :: 0 <= i < |nums[1..]| ==> nums[1..][i] == nums[i + 1];
    }
  }

  /** A recovery answer never spans payload sets and never reorders the report. */
  lemma SameSetStaysInOneSet(nums: seq<int>, maxPayloads: int)
    requires 0 < maxPayloads
    ensures SameSet(nums, maxPayloads) <= nums
    ensures nums != [] ==> SameSet(nums, maxPayloads) != []
    ensures forall n :: n in SameSet(nums, maxPayloads) ==> n / maxPayloads == nums[0] / maxPayloads
  {
    if nums != [] {
      WithinIsPrefix(nums, maxPayloads, nums[0] / maxPayloads);
    }
  }

  /** The receiver's cursor: the least NUM that is not stored. */
  ghost predicate IsCursor(l: Layout, b: Blocks, first: int)
    requires l.Valid()
  {
    0 <= first <= l.Count() && first !in b && forall i :: 0 <= i < first ==> i in b
  }

  lemma SetSpan(maxPayloads: int, first: int, count: int, n: int)
    requires 0 < maxPayloads && 0 <= first <= n <= SetLast(maxPayloads, first, count)
    ensures n / maxPayloads == first / maxPayloads && n < count
  {
    DivBounds(first, maxPayloads);
    DivUnique(n, maxPayloads, first / maxPayloads);
  }

  /** What the receiver asks for: the gaps of one set, a valid report, unchanged by the wire
      and by the sender's own cut to one set. */
  lemma RequestSurvivesTheWire(l: Layout, b: Blocks, first: int, maxPayloads: int)
    requires l.Valid() && Stored(l, b) && l.Count() <= MAX_NUM + 1 && 0 < maxPayloads
    requires IsCursor(l, b, first) && !AllStored(l, b)
    ensures var gaps := FirstGapSet(l, b, first, maxPayloads);
            && IsReport(gaps)
            && (forall n :: n in gaps <==> first <= n <= SetLast(maxPayloads, first, l.Count()) && n !in b)
            && first in gaps
            && Walk(EncodeAll(gaps), None) == Ok(gaps)
            && SameSet(gaps, maxPayloads) == gaps
  {
    var last := SetLast(maxPayloads, first, l.Count());
    var gaps := FirstGapSet(l, b, first, maxPayloads);
    DivBounds(first, maxPayloads);
    GapsAreExact(b, first, Max(first, last + 1));
    assert first < l.Count();
    assert first in gaps;
    forall i | 0 <= i < |gaps|
      ensures 0 <= gaps[i] <= MAX_NUM && gaps[i] / maxPayloads == first / maxPayloads
    {
      assert gaps[i] in gaps;
      SetSpan(maxPayloads, first, l.Count(), gaps[i]);
    }
    ReportRoundTrips(gaps);
    WithinIsPrefix(gaps, maxPayloads, gaps[0] / maxPayloads);
  }

  /** Repeating the requested blocks, some of which the network may lose again. */
  function Repeat(l: Layout, body: seq<byte>, b: Blocks, nums: seq<int>, lost: set<int>): (after: Blocks)
    requires l.Valid() && |body| == l.size
    requires forall i :: 0 <= i < |nums| ==> 0 <= nums[i] < l.Count()
    decreases |nums|
  {
    if nums == [] then b
    else
      var so := Repeat(l, body, b, nums[..|nums| - 1], lost);
      var n := nums[|nums| - 1];
      if n in lost then so else Receive(l, so, Sent(l, body, n))
  }

  lemma {:induction false} RepeatStores(l: Layout, body: seq<byte>, b: Blocks, nums: seq<int>, lost: set<int>)
    requires l.Valid() && |body| == l.size && Faithful(l, body, b)
    requires forall i :: 0 <= i < |nums| ==> 0 <= nums[i] < l.Count()
    ensures var after := Repeat(l, body, b, nums, lost);
            && Faithful(l, body, after)
            && (forall n :: n in after <==> n in b || (n in nums && n !in lost))
    decreases |nums|
  {
    if nums != [] {
      RepeatStores(l, body, b, nums[..|nums| - 1], lost);
      assert nums == nums[..|nums| - 1] + [nums[|nums| - 1]];
    }
  }

  /** One recovery round seen from outside: report, encode, decode, cut to one set, repeat. */
  ghost function Round(l: Layout, body: seq<byte>, b: Blocks, maxPayloads: int, lost: set<int>): (after: Blocks)
    requires l.Valid() && |body| == l.size && Faithful(l, body, b) && l.Count() <= MAX_NUM + 1
    requires 0 < maxPayloads
  {
    if AllStored(l, b) then b
    else
      var first := Cursor(l, b, 0);
      RequestSurvivesTheWire(l, b, first, maxPayloads);
      var heard := Walk(EncodeAll(FirstGapSet(l, b, first, maxPayloads)), None).value;
      var nums := SameSet(heard, maxPayloads);
      assert forall i :: 0 <= i < |nums| ==> nums[i] in nums;
      Repeat(l, body, b, nums, lost)
  }

  ghost function Cursor(l: Layout, b: Blocks, from: int): (first: int)
    requires l.Valid() && Stored(l, b) && 0 <= from <= l.Count()
    requires forall i :: 0 <= i < from ==> i in b
    ensures IsCursor(l, b, first)
    decreases l.Count() - from
  {
    if from in b then Cursor(l, b, from + 1) else from
  }

  /** A round stores exactly the requested blocks that were not lost. */
  lemma RoundIsExact(l: Layout, body: seq<byte>, b: Blocks, maxPayloads: int, lost: set<int>)
    requires l.Valid() && |body| == l.size && Faithful(l, body, b) && l.Count() <= MAX_NUM + 1
    requires 0 < maxPayloads && !AllStored(l, b)
    ensures var after, first := Round(l, body, b, maxPayloads, lost), Cursor(l, b, 0);
            && Faithful(l, body, after)
            && forall n :: n in after <==>
                 n in b || (first <= n <= SetLast(maxPayloads, first, l.Count()) && n !in lost)
  {
    var first := Cursor(l, b, 0);
    RequestSurvivesTheWire(l, b, first, maxPayloads);
    var gaps := FirstGapSet(l, b, first, maxPayloads);
    assert forall i :: 0 <= i < |gaps| ==> gaps[i] in gaps;
    RepeatStores(l, body, b, gaps, lost);
  }

  /** A round in which any requested block `n` gets through adds it and forgets nothing. */
  lemma LossyRoundProgresses(l: Layout, body: seq<byte>, b: Blocks, maxPayloads: int, lost: set<int>, n: int)
    requires l.Valid() && |body| == l.size && Faithful(l, body, b) && l.Count() <= MAX_NUM + 1
    requires 0 < maxPayloads && !AllStored(l, b)
    requires Cursor(l, b, 0) <= n <= SetLast(maxPayloads, Cursor(l, b, 0), l.Count()) && n !in b && n !in lost
    ensures b.Keys + {n} <= Round(l, body, b, maxPayloads, lost).Keys
  {
    RoundIsExact(l, body, b, maxPayloads, lost);
    var first := Cursor(l, b, 0);
    Grown(b, Round(l, body, b, maxPayloads, lost), first, SetLast(maxPayloads, first, l.Count()), lost, n);
  }

  lemma Grown(b: Blocks, after: Blocks, lo: int, hi: int, lost: set<int>, n: int)
    requires forall m :: m in after <==> m in b || (lo <= m <= hi && m !in lost)
    requires lo <= n <= hi && n !in lost && n !in b
    ensures b.Keys + {n} <= after.Keys
  {
    forall m | m in b.Keys + {n}
      ensures m in after.Keys
    {
      assert m in after;
    }
  }

  ghost function Rounds(l: Layout, body: seq<byte>, b: Blocks, maxPayloads: int, k: nat): (after: Blocks)
    requires l.Valid() && |body| == l.size && Faithful(l, body, b) && l.Count() <= MAX_NUM + 1
    requires 0 < maxPayloads
    ensures Faithful(l, body, after)
    decreases k
  {
    if k == 0 || AllStored(l, b) then b
    else
      RoundIsExact(l, body, b, maxPayloads, {});
      Rounds(l, body, Round(l, body, b, maxPayloads, {}), maxPayloads, k - 1)
  }

  /** Payload sets from the one holding the cursor to the last. */
  ghost function SetsLeft(l: Layout, first: int, maxPayloads: int): int
    requires l.Valid() && 0 < maxPayloads
  {
    (l.Count() - 1) / maxPayloads - first / maxPayloads + 1
  }

  /** A lossless round closes the whole earliest incomplete set. */
  lemma RoundClosesASet(l: Layout, body: seq<byte>, b: Blocks, maxPayloads: int)
    requires l.Valid() && |body| == l.size && Faithful(l, body, b) && l.Count() <= MAX_NUM + 1
    requires 0 < maxPayloads && !AllStored(l, b)
    ensures var after := Round(l, body, b, maxPayloads, {});
            && Faithful(l, body, after)
            && (AllStored(l, after) || SetsLeft(l, Cursor(l, after, 0), maxPayloads) < SetsLeft(l, Cursor(l, b, 0), maxPayloads))
  {
    RoundIsExact(l, body, b, maxPayloads, {});
    var after, first := Round(l, body, b, maxPayloads, {}), Cursor(l, b, 0);
    var next, last := Cursor(l, after, 0), SetLast(maxPayloads, first, l.Count());
    assert forall n :: 0 <= n <= last ==> n in after;
    if !AllStored(l, after) {
      assert next < l.Count();
      assert last == (first / maxPayloads + 1) * maxPayloads - 1;
      DivUnique((first / maxPayloads + 1) * maxPayloads, maxPayloads, first / maxPayloads + 1);
      DivMono((first / maxPayloads + 1) * maxPayloads, next, maxPayloads);
    }
  }

  lemma CursorInside(l: Layout, b: Blocks)
    requires l.Valid() && Stored(l, b) && !AllStored(l, b)
    ensures 0 <= Cursor(l, b, 0) <= l.Count() - 1
  {
  }

  /** Recovery converges: with no further loss, one round per payload set still open is enough,
      and the recovered body is the sender's. */
  lemma {:induction false} RecoveryConverges(l: Layout, body: seq<byte>, b: Blocks, maxPayloads: int, k: nat)
    requires l.Valid() && |body| == l.size && Faithful(l, body, b) && l.Count() <= MAX_NUM + 1
    requires 0 < maxPayloads && SetsLeft(l, Cursor(l, b, 0), maxPayloads) <= k
    ensures var after := Rounds(l, body, b, maxPayloads, k);
            AllStored(l, after) && Stored(l, after) && Content(l, after) == body
    decreases k
  {
    hide AllStored, Content, Round, Layout.Count, Cursor, Layout.Block;
    if AllStored(l, b) {
      Rebuilt(l, body, b);
    } else {
      CursorInside(l, b);
      DivMono(Cursor(l, b, 0), l.Count() - 1, maxPayloads);
      RoundClosesASet(l, body, b, maxPayloads);
      var after := Round(l, body, b, maxPayloads, {});
      if AllStored(l, after) {
        Rebuilt(l, body, after);
      } else {
        RecoveryConverges(l, body, after, maxPayloads, k - 1);
      }
    }
  }
}
