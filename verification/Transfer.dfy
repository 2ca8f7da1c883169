/** The sparse receiver and the replayable sender of a Q-Block body. A body of
    `size` bytes is cut into blocks of `blockSize` bytes; every block but the last is
    full, and an empty body still has one (empty) block. */
module Transfer {
  import opened Base

  const MAX_SZX: nat := 6
  const MAX_NUM: int := 0xfffff

  datatype QError = InvalidSize | InvalidNum | InvalidSzx | TooLarge | Incomplete | UnexpectedEof

  /** Block size of an exponent; 7 (BERT) still means 1024 and larger values mean none. */
  function SzxSize(szx: nat): (n: int)
    ensures szx <= 7 ==> 16 <= n <= 1024
  {
    if szx > 7 then -1
    else [16, 32, 64, 128, 256, 512, 1024, 1024][szx]
  }

  /** How a body of a declared size is divided: the reference the receiver is proved against. */
  datatype Layout = Layout(blockSize: int, size: int) {

    ghost predicate Valid() {
      0 < blockSize && 0 <= size
    }

    function Count(): (n: int)
      requires Valid()
      ensures 1 <= n
    {
      if size == 0 then 1 else (size - 1) / blockSize + 1
    }

    function Len(num: int): int
      requires Valid()
    {
      Min(blockSize, size - num * blockSize)
    }

    /** The only shape in which block `num` of this body can arrive. */
    predicate Fits(num: int, more: bool, payload: seq<byte>)
      requires Valid()
    {
      0 <= num < Count() && more == (num < Count() - 1) && |payload| == Len(num)
    }

    /** Where the blocks lie: full ones first, the last one ending the body. */
    lemma Extent(num: int)
      requires Valid() && 0 <= num < Count()
      ensures 0 <= num * blockSize <= size
      ensures 0 <= Len(num) <= blockSize
      ensures num * blockSize + Len(num) <= size
      ensures num < Count() - 1 ==> Len(num) == blockSize && num * blockSize + blockSize < size
      ensures num == Count() - 1 ==> num * blockSize + Len(num) == size
    {
      if size > 0 {
        DivBounds(size - 1, blockSize);
        MulMono(num, Count() - 1, blockSize);
        if num < Count() - 1 {
          MulMono(num + 1, Count() - 1, blockSize);
        }
      }
    }

    /** The receiver's size checks, in one formula, say exactly that the payload fits. */
    lemma ChecksAreExact(num: int, more: bool, offset: int, n: nat)
      requires Valid() && 0 <= num < Count() && offset == num * blockSize
      ensures 0 <= offset
      ensures (more == (num < Count() - 1) && n == Len(num)) <==>
              && offset + n <= size && n <= blockSize
              && (if more then n == blockSize && offset + n < size else offset + n == size)
    {
      Extent(num);
    }

    /** The block that holds an offset of the body. */
    lemma Holds(off: int)
      requires Valid() && 0 <= off < size
      ensures 0 <= off / blockSize < Count()
      ensures off / blockSize * blockSize + off % blockSize == off
      ensures off % blockSize < Len(off / blockSize)
    {
      DivMono(off, size - 1, blockSize);
      DivMono(0, off, blockSize);
      DivUnique(0, blockSize, 0);
      DivBounds(off, blockSize);
    }

    /** Blocks past the last start at or after the end of a non-empty body. */
    lemma Beyond(num: int)
      requires Valid() && Count() <= num
      ensures size <= num * blockSize && 0 < num * blockSize
    {
      MulMono(1, num, blockSize);
      if size > 0 {
        DivBounds(size - 1, blockSize);
        MulMono(Count(), num, blockSize);
      }
    }

    function Block(body: seq<byte>, num: int): (payload: seq<byte>)
      requires Valid() && |body| == size && 0 <= num < Count()
      ensures Fits(num, num < Count() - 1, payload)
    {
      Extent(num);
      body[num * blockSize..num * blockSize + Len(num)]
    }
  }

  /** The block count as the receiver, the scheduler and the validator each compute it. */
  lemma CountForms(l: Layout)
    requires l.Valid()
    ensures Max(1, (l.size + l.blockSize - 1) / l.blockSize) == l.Count()
    ensures (Max(l.size, 1) - 1) / l.blockSize == l.Count() - 1
  {
    if l.size == 0 {
      DivUnique(l.blockSize - 1, l.blockSize, 0);
      DivUnique(0, l.blockSize, 0);
    } else {
      DivBounds(l.size - 1, l.blockSize);
      DivUnique(l.size + l.blockSize - 1, l.blockSize, (l.size - 1) / l.blockSize + 1);
    }
  }

  type Blocks = map<int, seq<byte>>

  /** Every stored block is one the layout has room for. */
  ghost predicate Stored(l: Layout, b: Blocks)
    requires l.Valid()
  {
    forall n :: n in b ==> 0 <= n < l.Count() && |b[n]| == l.Len(n)
  }

  ghost predicate AllStored(l: Layout, b: Blocks)
    requires l.Valid()
  {
    forall n :: 0 <= n < l.Count() ==> n in b
  }

  /** Bytes stored in the first `n` blocks. */
  ghost function SumTo(b: Blocks, n: nat): (total: int)
  {
    if n == 0 then 0 else SumTo(b, n - 1) + if n - 1 in b then |b[n - 1]| else 0
  }

  /** Concatenation of the first `n` blocks. */
  ghost function Joined(b: Blocks, n: nat): (bytes: seq<byte>)
    requires forall i :: 0 <= i < n ==> i in b
  {
    if n == 0 then [] else Joined(b, n - 1) + b[n - 1]
  }

  ghost function Content(l: Layout, b: Blocks): (bytes: seq<byte>)
    requires l.Valid() && AllStored(l, b)
  {
    Joined(b, l.Count())
  }

  lemma {:induction false} SumToInsert(b: Blocks, k: int, p: seq<byte>, n: nat)
    requires k !in b && 0 <= k
    ensures SumTo(b[k := p], n) == SumTo(b, n) + if k < n then |p| else 0
  {
    if n > 0 {
      SumToInsert(b, k, p, n - 1);
    }
  }

  /** A full prefix of blocks has exactly the bytes the layout gives it. */
  lemma {:induction false} SumToFull(l: Layout, b: Blocks, n: nat)
    requires l.Valid() && Stored(l, b) && n <= l.Count()
    requires forall i :: 0 <= i < n ==> i in b
    ensures SumTo(b, n) == if n < l.Count() then n * l.blockSize else l.size
  {
    if n > 0 {
      SumToFull(l, b, n - 1);
      l.Extent(n - 1);
    }
  }

  lemma {:induction false} JoinedLength(b: Blocks, n: nat)
    requires forall i :: 0 <= i < n ==> i in b
    ensures |Joined(b, n)| == SumTo(b, n)
  {
    if n > 0 {
      JoinedLength(b, n - 1);
    }
  }

  lemma {:induction false} JoinedPrefix(b: Blocks, m: nat, n: nat)
    requires m <= n && forall i :: 0 <= i < n ==> i in b
    ensures Joined(b, m) <= Joined(b, n)
  {
    if m < n {
      JoinedPrefix(b, m, n - 1);
    }
  }

  /** Block `num` sits at offset `num * blockSize` of the reassembled body. */
  lemma BlockAt(l: Layout, b: Blocks, num: nat)
    requires l.Valid() && Stored(l, b) && AllStored(l, b) && num < l.Count()
    ensures |Content(l, b)| == l.size
    ensures 0 <= num * l.blockSize <= num * l.blockSize + |b[num]| <= l.size
    ensures Content(l, b)[num * l.blockSize..num * l.blockSize + |b[num]|] == b[num]
  {
    var n := l.Count();
    SumToFull(l, b, n);
    JoinedLength(b, n);
    SumToFull(l, b, num);
    JoinedLength(b, num);
    l.Extent(num);
    JoinedPrefix(b, num + 1, n);
    assert Joined(b, num + 1) == Joined(b, num) + b[num];
    var c := Joined(b, n);
    assert c[..num * l.blockSize + |b[num]|] == Joined(b, num + 1);
  }

  lemma SliceShift(body: seq<byte>, start: nat, n: nat, off: int)
    requires start + n <= |body| && start <= off <= start + n
    ensures body[start..start + n][off - start..] == body[off..start + n]
  {
  }

  /** Sparse body receiver. */
  class Assembly {
    const szx: nat
    const bodySize: int
    const maxBodySize: int
    const maxBlocks: int
    var blocks: Blocks
    var finalBlock: int
    var receivedSize: int
    var firstMissing: int

    function Shape(): (l: Layout) {
      Layout(SzxSize(szx), bodySize)
    }

    /** What the constructor checks, so that every NUM of the body is a 20-bit number. */
    ghost predicate Bounded() {
      && szx <= MAX_SZX && 0 <= bodySize
      && Shape().Count() <= maxBlocks && Shape().Count() - 1 <= MAX_NUM
    }

    /** The counters are functions of the stored blocks: the final block is known exactly
        when it is stored, and the cursor is the least NUM not stored. */
    ghost predicate Valid()
      reads this
    {
      && Bounded()
      && Stored(Shape(), blocks)
      && finalBlock == (if Shape().Count() - 1 in blocks then Shape().Count() - 1 else -1)
      && receivedSize == SumTo(blocks, Shape().Count())
      && 0 <= firstMissing <= Shape().Count()
      && firstMissing !in blocks
      && forall i :: 0 <= i < firstMissing ==> i in blocks
    }

    constructor Empty(szx: nat, bodySize: int, maxBodySize: int, maxBlocks: int)
      requires szx <= MAX_SZX && 0 <= bodySize
      requires Layout(SzxSize(szx), bodySize).Count() <= maxBlocks
      requires Layout(SzxSize(szx), bodySize).Count() - 1 <= MAX_NUM
      ensures Valid() && blocks == map[]
      ensures this.szx == szx && this.bodySize == bodySize
    {
      this.szx := szx;
      this.bodySize := bodySize;
      this.maxBodySize := maxBodySize;
      this.maxBlocks := maxBlocks;
      blocks := map[];
      finalBlock := -1;
      receivedSize := 0;
      firstMissing := 0;
      new;
      NothingStored(Shape().Count());
    }

    /** Refuses exactly the bodies that are too large for the caller's bounds or for NUM. */
    static method New(szx: nat, bodySize: int, maxBodySize: int, maxBlocks: int)
      returns (r: Result<Assembly, QError>)
      ensures r.Ok? <==>
              && szx <= MAX_SZX && 0 <= bodySize <= maxBodySize && 0 < maxBodySize
              && Layout(SzxSize(szx), bodySize).Count() <= Min(maxBlocks, MAX_NUM + 1)
      ensures r.Ok? ==> fresh(r.value) && r.value.Valid() && r.value.blocks == map[]
                        && r.value.szx == szx && r.value.bodySize == bodySize
      ensures r.Err? ==> r.error == if szx > MAX_SZX || bodySize < 0 then InvalidSize else TooLarge
    {
      if szx > MAX_SZX || bodySize < 0 {
        return Err(InvalidSize);
      }
      if maxBodySize <= 0 || bodySize > maxBodySize {
        return Err(TooLarge);
      }
      var blockSize := SzxSize(szx);
      var blockCount := 0;
      if bodySize > 0 {
        blockCount := (bodySize - 1) / blockSize + 1;
      }
      if maxBlocks <= 0 || blockCount > maxBlocks || blockCount - 1 > MAX_NUM {
        return Err(TooLarge);
      }
      var a := new Assembly.Empty(szx, bodySize, maxBodySize, maxBlocks);
      return Ok(a);
    }

    /** The counting test the receiver uses is exact: it holds if and only if every NUM is stored. */
    function CompleteLocked(): (complete: bool)
      requires Valid()
      reads this
      ensures complete <==> AllStored(Shape(), blocks)
    {
      CountingIsExact();
      if bodySize == 0 then
        finalBlock == 0 && |blocks| == 1
      else if finalBlock < 0 || |blocks| != finalBlock + 1 then
        false
      else
        receivedSize == bodySize
    }

    lemma CountingIsExact()
      requires Valid()
      ensures |blocks| == Shape().Count() <==> AllStored(Shape(), blocks)
      ensures AllStored(Shape(), blocks) ==> receivedSize == bodySize
    {
      var n := Shape().Count();
      BelowSize(n);
      assert blocks.Keys <= Below(n);
      SubsetSize(blocks.Keys, Below(n));
      if AllStored(Shape(), blocks) {
        assert blocks.Keys == Below(n);
        SumToFull(Shape(), blocks, n);
      }
    }

    method HasBlockAfter(num: int) returns (found: bool)
      ensures found <==> exists k :: k in blocks && num < k
    {
      var rest := blocks.Keys;
      while rest != {}
        invariant rest <= blocks.Keys
        invariant forall k :: k in blocks && k !in rest ==> k <= num
        decreases |rest|
      {
        NonEmptyInt(rest);
        var k :| k in rest;
        if k > num {
          return true;
        }
        rest := rest - {k};
      }
      return false;
    }

    /** The chain of size checks accepts exactly the one shape the layout allows. The limit
        on tracked blocks, checked last, never decides. */
    method ValidatePayload(num: int, more: bool, payload: seq<byte>) returns (err: Option<QError>)
      requires Valid() && 0 <= num && num !in blocks
      ensures err.None? <==> Shape().Fits(num, more, payload)
      ensures err.Some? ==> err.value == if num >= Shape().Count() then InvalidNum else InvalidSize
    {
      hide Layout.Count, Layout.Len, SumTo;
      var blockSize := SzxSize(szx);
      CountForms(Shape());
      var lastNum := (Max(bodySize, 1) - 1) / blockSize;
      if num > lastNum {
        return Some(InvalidNum);
      }
      var offset := num * blockSize;
      var end := offset + |payload|;
      Shape().ChecksAreExact(num, more, offset, |payload|);
      if end < offset || end > bodySize || |payload| > blockSize {
        return Some(InvalidSize);
      }
      if more {
        if |payload| != blockSize || end >= bodySize {
          return Some(InvalidSize);
        }
      } else if end != bodySize {
        return Some(InvalidSize);
      }
      RoomForOneMore(num);
      if |blocks| >= maxBlocks {
        return Some(TooLarge);
      }
      return None;
    }

    lemma RoomForOneMore(num: int)
      requires Valid() && 0 <= num < Shape().Count() && num !in blocks
      ensures |blocks| < maxBlocks
    {
      BelowSize(Shape().Count());
      assert blocks.Keys <= Below(Shape().Count());
      SubsetSize(blocks.Keys, Below(Shape().Count()));
    }

    /** Stores a payload unless it is a duplicate or has no place in the body. The first
        payload accepted for a NUM stays authoritative. */
    method Add(num: int, more: bool, payload: seq<byte>)
      returns (complete: bool, duplicate: bool, err: Option<QError>)
      requires Valid()
      modifies this
      ensures Valid()
      ensures blocks == Receive(Shape(), old(blocks), Arrival(num, more, payload))
      ensures duplicate <==> num in old(blocks)
      ensures err.None? <==> num in old(blocks) || Shape().Fits(num, more, payload)
      ensures err.Some? ==> err.value == if 0 <= num < Shape().Count() then InvalidSize else InvalidNum
      ensures complete <==> err.None? && AllStored(Shape(), blocks)
    {
      hide Layout.Count, Layout.Len, SumTo;
      if num < 0 || num > MAX_NUM {
        return false, false, Some(InvalidNum);
      }
      if num in blocks {
        return CompleteLocked(), true, None;
      }
      err := ValidatePayload(num, more, payload);
      if err.Some? {
        return false, false, err;
      }
      if (finalBlock >= 0 && num > finalBlock) || (!more && finalBlock >= 0 && finalBlock != num) {
        return false, false, Some(InvalidSize);
      }
      if !more {
        var after := HasBlockAfter(num);
        if after {
          return false, false, Some(InvalidSize);
        }
        finalBlock := num;
      }
      ghost var count := Shape().Count();
      SumToInsert(blocks, num, payload, count);
      blocks := blocks[num := payload];
      receivedSize := receivedSize + |payload|;
      AdvanceCursor();
      return CompleteLocked(), false, None;
    }

    /** Moves the cursor past every stored block it stands on. */
    method AdvanceCursor()
      requires Bounded() && Stored(Shape(), blocks)
      requires 0 <= firstMissing <= Shape().Count()
      requires forall i :: 0 <= i < firstMissing ==> i in blocks
      modifies this`firstMissing
      ensures 0 <= firstMissing <= Shape().Count()
      ensures firstMissing !in blocks && forall i :: 0 <= i < firstMissing ==> i in blocks
    {
      while firstMissing in blocks
        invariant 0 <= firstMissing <= Shape().Count()
        invariant forall i :: 0 <= i < firstMissing ==> i in blocks
        decreases Shape().Count() - firstMissing
      {
        firstMissing := firstMissing + 1;
      }
    }

    /** The ascending NUMs still needed; the list is empty exactly when the body is complete. */
    method Missing() returns (missing: seq<int>)
      requires Valid()
      ensures missing == Gaps(blocks, 0, Shape().Count())
    {
      var blockCount := 1;
      if bodySize > 0 {
        blockCount := (bodySize - 1) / SzxSize(szx) + 1;
      }
      if blockCount > maxBlocks {
        return [];
      }
      missing := [];
      for num := 0 to blockCount
        invariant missing == Gaps(blocks, 0, num)
      {
        if num !in blocks {
          missing := missing + [num];
        }
      }
    }

    /** The gaps of the earliest incomplete payload set. */
    method MissingSet(maxPayloads: int) returns (missing: seq<int>)
      requires Valid() && 0 < maxPayloads
      ensures missing == FirstGapSet(Shape(), blocks, firstMissing, maxPayloads)
    {
      CountForms(Shape());
      var count := Max(1, (bodySize + SzxSize(szx) - 1) / SzxSize(szx));
      var num, last := firstMissing, SetLast(maxPayloads, firstMissing, count);
      missing := [];
      while num <= last
        invariant firstMissing <= num <= Max(firstMissing, last + 1)
        invariant missing == Gaps(blocks, firstMissing, num)
      {
        if num !in blocks {
          missing := missing + [num];
        }
        num := num + 1;
      }
    }

    /** The first gap, and whether there is one. */
    method FirstMissing() returns (num: int, exists_: bool)
      requires Valid()
      ensures exists_ <==> !AllStored(Shape(), blocks)
      ensures num !in blocks && forall i :: 0 <= i < num ==> i in blocks
      ensures 0 <= num <= Shape().Count()
    {
      CountForms(Shape());
      var count := Max(1, (bodySize + SzxSize(szx) - 1) / SzxSize(szx));
      return firstMissing, firstMissing < count;
    }
  }

  lemma {:induction false} NothingStored(n: nat)
    ensures SumTo(map[], n) == 0
  {
    if n > 0 {
      NothingStored(n - 1);
    }
  }

  /** One datagram as the receiver sees it. */
  datatype Arrival = Arrival(num: int, more: bool, payload: seq<byte>)

  /** The receiver's rule, without its counters: a first, fitting payload is kept. */
  function Receive(l: Layout, b: Blocks, a: Arrival): Blocks
    requires l.Valid()
  {
    if a.num !in b && l.Fits(a.num, a.more, a.payload) then b[a.num := a.payload] else b
  }

  function ReceiveAll(l: Layout, b: Blocks, run: seq<Arrival>): Blocks
    requires l.Valid()
    decreases |run|
  {
    if run == [] then b
    else Receive(l, ReceiveAll(l, b, run[..|run| - 1]), run[|run| - 1])
  }

  /** Last NUM of the payload set holding `num`. */
  function SetLast(maxPayloads: int, num: int, count: int): int
    requires 0 < maxPayloads
  {
    Min((num / maxPayloads + 1) * maxPayloads, count) - 1
  }

  /** NUMs in [lo, hi) that are not stored, in ascending order. */
  function Gaps(b: Blocks, lo: int, hi: int): (gaps: seq<int>)
    requires lo <= hi
    decreases hi - lo
  {
    if lo == hi then []
    else
      var init := Gaps(b, lo, hi - 1);
      if hi - 1 in b then init else init + [hi - 1]
  }

  lemma {:induction false} GapsAreExact(b: Blocks, lo: int, hi: int)
    requires lo <= hi
    ensures forall n :: n in Gaps(b, lo, hi) <==> lo <= n < hi && n !in b
    ensures Increasing(Gaps(b, lo, hi))
    decreases hi - lo
  {
    if lo < hi {
      GapsAreExact(b, lo, hi - 1);
      var init := Gaps(b, lo, hi - 1);
      assert forall i :: 0 <= i < |init| ==> init[i] in init;
    }
  }

  predicate Increasing(s: seq<int>) {
    forall i, j :: 0 <= i < j < |s| ==> s[i] < s[j]
  }

  function FirstGapSet(l: Layout, b: Blocks, firstMissing: int, maxPayloads: int): (gaps: seq<int>)
    requires l.Valid() && 0 < maxPayloads
  {
    Gaps(b, firstMissing, Max(firstMissing, SetLast(maxPayloads, firstMissing, l.Count()) + 1))
  }

  // ---------------------------------------------------------------- reading the result

  datatype Whence = SeekStart | SeekCurrent | SeekEnd | OtherWhence

  datatype ReadError = EndOfFile | InvalidWhence | InvalidPosition

  /** Reader over the sparse blocks of a complete body. */
  class SparseReader {
    const blocks: Blocks
    const size: int
    const blockSize: int
    var offset: int

    ghost function Shape(): Layout {
      Layout(blockSize, size)
    }

    ghost predicate Valid()
      reads this
    {
      && Shape().Valid() && Stored(Shape(), blocks) && AllStored(Shape(), blocks)
      && 0 <= offset
    }

    constructor (assembly: Assembly)
      requires assembly.Valid() && AllStored(assembly.Shape(), assembly.blocks)
      ensures Valid() && offset == 0
      ensures Shape() == assembly.Shape() && blocks == assembly.blocks
    {
      blocks := assembly.blocks;
      size := assembly.bodySize;
      blockSize := SzxSize(assembly.szx);
      offset := 0;
    }

    /** Copies as many bytes of the body as fit, starting at the current offset. */
    method Read(p: array<byte>) returns (n: nat, err: Option<ReadError>)
      requires Valid()
      modifies this`offset, p
      ensures Valid()
      ensures err == if p.Length != 0 && old(offset) >= size then Some(EndOfFile) else None
      ensures n == Max(0, Min(p.Length, size - old(offset)))
      ensures offset == old(offset) + n
      ensures |Content(Shape(), blocks)| == size
      ensures n > 0 ==> p[..] == Content(Shape(), blocks)[old(offset)..offset] + old(p[..])[n..]
      ensures n == 0 ==> p[..] == old(p[..])
    {
      hide Layout.Count, Content, Stored, AllStored;
      BlockAt(Shape(), blocks, 0);
      if p.Length == 0 {
        return 0, None;
      }
      if offset >= size {
        return 0, Some(EndOfFile);
      }
      n := 0;
      ghost var body, given := Content(Shape(), blocks), p[..];
      assert body[offset..offset] == [] && [] + given[0..] == given;
      while n < p.Length && offset < size
        invariant Valid() && n <= p.Length
        invariant offset == old(offset) + n <= size
        invariant p[..] == body[old(offset)..offset] + given[n..]
        decreases p.Length - n
      {
        var copied := CopyFromBlock(p, n, body, given, old(offset));
        n := n + copied;
      }
      return n, None;
    }

    /** One turn of the read loop: the rest of the current block, or as much of it as fits. */
    method CopyFromBlock(p: array<byte>, n: nat, ghost body: seq<byte>, ghost given: seq<byte>, ghost from: int)
      returns (copied: nat)
      requires Valid() && n < p.Length && offset < size && body == Content(Shape(), blocks)
      requires |body| == size && 0 <= from && from + n == offset && |given| == p.Length
      requires p[..] == body[from..offset] + given[n..]
      modifies this`offset, p
      ensures Valid() && 0 < copied <= p.Length - n && offset == old(offset) + copied <= size
      ensures p[..] == body[from..offset] + given[n + copied..]
    {
      hide Layout.Count, Content, Stored, AllStored;
      OffsetInBlock(offset);
      var block := blocks[offset / blockSize];
      var tail := block[offset % blockSize..];
      copied := Min(p.Length - n, |tail|);
      assert tail[..copied] == body[offset..offset + copied];
      Copied(given, n, tail[..copied], body, from);
      CopyInto(p, n, tail[..copied]);
      offset := offset + copied;
    }

    /** The block holding an offset, and where in it the offset falls. */
    lemma OffsetInBlock(off: int)
      requires Valid() && 0 <= off < size
      ensures off / blockSize in blocks && |Content(Shape(), blocks)| == size
      ensures 0 <= off % blockSize < |blocks[off / blockSize]|
      ensures off + |blocks[off / blockSize]| - off % blockSize <= size
      ensures blocks[off / blockSize][off % blockSize..]
           == Content(Shape(), blocks)[off..off + |blocks[off / blockSize]| - off % blockSize]
    {
      hide Content;
      var num := off / blockSize;
      Shape().Holds(off);
      BlockAt(Shape(), blocks, num);
      SliceShift(Content(Shape(), blocks), num * blockSize, |blocks[num]|, off);
    }

    ghost function SeekBase(whence: Whence): int
      reads this
    {
      match whence case SeekStart => 0 case SeekCurrent => offset case SeekEnd => size case OtherWhence => 0
    }

    /** Moves the offset anywhere a 64-bit offset can reach, past the end included. */
    method Seek(delta: int, whence: Whence) returns (position: int, err: Option<ReadError>)
      requires Valid() && offset <= MAX_INT64 && size <= MAX_INT64
      modifies this`offset
      ensures Valid() && position == offset <= MAX_INT64
      ensures err.None? <==> whence != OtherWhence && 0 <= old(SeekBase(whence)) + delta <= MAX_INT64
      ensures offset == if err.None? then old(SeekBase(whence)) + delta else old(offset)
    {
      var base := 0;
      match whence {
        case SeekStart =>
        case SeekCurrent => base := offset;
        case SeekEnd => base := size;
        case OtherWhence => return offset, Some(InvalidWhence);
      }
      if delta < -base || delta > MAX_INT64 - base {
        return offset, Some(InvalidPosition);
      }
      offset := base + delta;
      return offset, None;
    }
  }

  lemma Copied(given: seq<byte>, n: nat, chunk: seq<byte>, body: seq<byte>, from: int)
    requires n + |chunk| <= |given| && 0 <= from && from + n + |chunk| <= |body|
    requires chunk == body[from + n..from + n + |chunk|]
    ensures var p := body[from..from + n] + given[n..];
            p[..n] + chunk + p[n + |chunk|..] == body[from..from + n + |chunk|] + given[n + |chunk|..]
  {
  }

  method CopyInto(p: array<byte>, at: nat, src: seq<byte>)
    requires at + |src| <= p.Length
    modifies p
    ensures p[..] == old(p[..])[..at] + src + old(p[..])[at + |src|..]
  {
    for i := 0 to |src|
      invariant p[..at] == old(p[..at])
      invariant p[at..at + i] == src[..i]
      invariant p[at + |src|..] == old(p[at + |src|..])
    {
      p[at + i] := src[i];
    }
    assert p[..] == p[..at] + p[at..at + |src|] + p[at + |src|..];
  }

  // ---------------------------------------------------------------- sending

  /** Random access to a replayable body. `body` is what the underlying reader would yield
      from its start; its length need not be the declared size. */
  class Sender {
    const body: seq<byte>
    const szx: nat
    const bodySize: int
    var position: int

    ghost predicate Valid() {
      szx <= MAX_SZX && 0 <= bodySize && Shape().Count() <= MAX_NUM + 1
    }

    function Shape(): (l: Layout) {
      Layout(SzxSize(szx), bodySize)
    }

    constructor (body: seq<byte>, szx: nat, bodySize: int)
      requires szx <= MAX_SZX && 0 <= bodySize
      requires Layout(SzxSize(szx), bodySize).Count() <= MAX_NUM + 1
      ensures Valid() && this.body == body && this.szx == szx && this.bodySize == bodySize
    {
      this.body := body;
      this.szx := szx;
      this.bodySize := bodySize;
      position := 0;
    }

    static method New(body: seq<byte>, szx: nat, bodySize: int) returns (r: Result<Sender, QError>)
      ensures r.Ok? <==> szx <= MAX_SZX && 0 <= bodySize
                         && Layout(SzxSize(szx), bodySize).Count() <= MAX_NUM + 1
      ensures r.Ok? ==> fresh(r.value) && r.value.Valid() && r.value.body == body
                        && r.value.szx == szx && r.value.bodySize == bodySize
      ensures r.Err? ==> r.error == InvalidSize
    {
      if szx > MAX_SZX || bodySize < 0 {
        return Err(InvalidSize);
      }
      var blocks := 0;
      if bodySize > 0 {
        blocks := (bodySize - 1) / SzxSize(szx) + 1;
      }
      if blocks > MAX_NUM + 1 {
        return Err(InvalidSize);
      }
      var s := new Sender(body, szx, bodySize);
      return Ok(s);
    }

    lemma LastStartsInside(num: int)
      requires Valid() && 0 <= num < Shape().Count() && 0 < bodySize
      ensures num * SzxSize(szx) < bodySize
    {
      DivBounds(bodySize - 1, SzxSize(szx));
      MulMono(num, Shape().Count() - 1, SzxSize(szx));
    }

    /** Block `num`, for exactly the NUMs of the declared body; a body shorter than declared
        fails on exactly the blocks it cannot fill. */
    method Block(num: int) returns (r: Result<Arrival, QError>)
      requires Valid()
      modifies this
      ensures 0 <= num < Shape().Count() && |body| == bodySize ==>
              r == Ok(Arrival(num, num < Shape().Count() - 1, Shape().Block(body, num)))
      ensures r.Ok? <==> 0 <= num < Shape().Count() && num * SzxSize(szx) + Shape().Len(num) <= |body|
      ensures r.Err? ==> r.error == if 0 <= num < Shape().Count() then UnexpectedEof else InvalidNum
      ensures r.Ok? ==> r.value.num == num && Shape().Fits(num, r.value.more, r.value.payload)
                        && 0 <= num * SzxSize(szx)
                        && r.value.payload == body[num * SzxSize(szx)..num * SzxSize(szx) + Shape().Len(num)]
    {
      if num < 0 || num > MAX_NUM {
        return Err(InvalidNum);
      }
      var blockSize := SzxSize(szx);
      var offset := num * blockSize;
      if num < Shape().Count() {
        Shape().Extent(num);
        if 0 < bodySize {
          LastStartsInside(num);
        }
      } else {
        Shape().Beyond(num);
      }
      if offset > bodySize || (offset == bodySize && bodySize != 0) {
        return Err(InvalidNum);
      }
      var length := blockSize;
      if bodySize - offset < length {
        length := bodySize - offset;
      }
      position := offset;
      if position + length > |body| {
        position := |body|;
        return Err(UnexpectedEof);
      }
      var payload := body[position..position + length];
      position := position + length;
      return Ok(Arrival(num, offset + |payload| < bodySize, payload));
    }
  }
}
