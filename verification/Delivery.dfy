/** What a lossy, reordering, duplicating network can do to a body on its way from the
    sender to the receiver: nothing but delay it. */
module Delivery {
  import opened Base
  import opened Transfer

  /** Block `num` as the sender puts it on the wire. */
  function Sent(l: Layout, body: seq<byte>, num: int): (a: Arrival)
    requires l.Valid() && |body| == l.size && 0 <= num < l.Count()
  {
    Arrival(num, num < l.Count() - 1, l.Block(body, num))
  }

  /** A delivery: every arrival is a block the sender sent, in any order, any number of times. */
  ghost predicate IsDelivery(l: Layout, body: seq<byte>, run: seq<Arrival>)
    requires l.Valid() && |body| == l.size
  {
    forall i :: 0 <= i < |run| ==> 0 <= run[i].num < l.Count() && run[i] == Sent(l, body, run[i].num)
  }

  ghost predicate Arrived(run: seq<Arrival>, num: int) {
    exists i :: 0 <= i < |run| && run[i].num == num
  }

  /** Blocks that are the sender's own. */
  ghost predicate Faithful(l: Layout, body: seq<byte>, b: Blocks)
    requires l.Valid() && |body| == l.size
  {
    forall n :: n in b ==> 0 <= n < l.Count() && b[n] == l.Block(body, n)
  }

  lemma {:induction false} JoinedIsPrefix(l: Layout, body: seq<byte>, b: Blocks, n: nat)
    requires l.Valid() && |body| == l.size && Faithful(l, body, b) && AllStored(l, b)
    requires n <= l.Count()
    ensures 0 <= n * l.blockSize && Joined(b, n) == body[..Min(n * l.blockSize, l.size)]
  {
    if n > 0 {
      JoinedIsPrefix(l, body, b, n - 1);
      l.Extent(n - 1);
      var o, len := (n - 1) * l.blockSize, l.Len(n - 1);
      assert n * l.blockSize == o + l.blockSize;
      TakeMore(body, o, len);
    }
  }

  lemma TakeMore(body: seq<byte>, o: nat, len: nat)
    requires o + len <= |body|
    ensures body[..o] + body[o..o + len] == body[..o + len]
  {
  }

  lemma Rebuilt(l: Layout, body: seq<byte>, b: Blocks)
    requires l.Valid() && |body| == l.size && Faithful(l, body, b) && AllStored(l, b)
    ensures Stored(l, b) && Content(l, b) == body
  {
    JoinedIsPrefix(l, body, b, l.Count());
    l.Extent(l.Count() - 1);
    assert body[..l.size] == body;
  }

  lemma {:induction false} StoredIffArrived(l: Layout, body: seq<byte>, run: seq<Arrival>)
    requires l.Valid() && |body| == l.size && IsDelivery(l, body, run)
    ensures Faithful(l, body, ReceiveAll(l, map[], run))
    ensures forall n :: n in ReceiveAll(l, map[], run) <==> Arrived(run, n)
    decreases |run|
  {
    if run != [] {
      var init, a := run[..|run| - 1], run[|run| - 1];
      StoredIffArrived(l, body, init);
      var b := ReceiveAll(l, map[], init);
      forall n
        ensures n in ReceiveAll(l, map[], run) <==> Arrived(run, n)
      {
        if Arrived(init, n) {
          var i :| 0 <= i < |init| && init[i].num == n;
          assert run[i].num == n;
        }
        if n == a.num {
          assert run[|run| - 1].num == n;
        }
      }
    }
  }

  /** Main delivery theorem. Whatever is lost, repeated or reordered, no arrival is refused,
      the body completes exactly when every NUM has arrived at least once, and a complete
      body is the sender's body byte for byte. */
  lemma EveryDeliveryIsExact(l: Layout, body: seq<byte>, run: seq<Arrival>)
    requires l.Valid() && |body| == l.size && IsDelivery(l, body, run)
    ensures forall i :: 0 <= i < |run| ==> l.Fits(run[i].num, run[i].more, run[i].payload)
    ensures AllStored(l, ReceiveAll(l, map[], run)) <==> forall n :: 0 <= n < l.Count() ==> Arrived(run, n)
    ensures AllStored(l, ReceiveAll(l, map[], run)) ==> Content(l, ReceiveAll(l, map[], run)) == body
  {
    StoredIffArrived(l, body, run);
    var b := ReceiveAll(l, map[], run);
    if AllStored(l, b) {
      Rebuilt(l, body, b);
      forall n | 0 <= n < l.Count()
        ensures Arrived(run, n)
      {
        assert n in b;
      }
    }
  }

  /** An arrival kept by the receiver for `num` in a run that need not come from a sender. */
  ghost predicate FirstFitting(l: Layout, run: seq<Arrival>, num: int, i: int)
    requires l.Valid()
  {
    && 0 <= i < |run| && run[i].num == num && l.Fits(num, run[i].more, run[i].payload)
    && forall j :: 0 <= j < i ==> !(run[j].num == num && l.Fits(num, run[j].more, run[j].payload))
  }

  /** Hostile runs: whatever arrives, the receiver holds for each NUM exactly the first
      payload of the right shape, and nothing else. */
  lemma {:induction false} FirstPayloadWins(l: Layout, run: seq<Arrival>, num: int)
    requires l.Valid()
    ensures Stored(l, ReceiveAll(l, map[], run))
    ensures num in ReceiveAll(l, map[], run) <==> exists i :: FirstFitting(l, run, num, i)
    ensures forall i :: FirstFitting(l, run, num, i) ==>
              num in ReceiveAll(l, map[], run) && ReceiveAll(l, map[], run)[num] == run[i].payload
    decreases |run|
  {
    if run != [] {
      var init, last := run[..|run| - 1], |run| - 1;
      FirstPayloadWins(l, init, num);
      forall i
        ensures i < last ==> (FirstFitting(l, run, num, i) <==> FirstFitting(l, init, num, i))
      {
      }
      if num in ReceiveAll(l, map[], init) {
        var i :| FirstFitting(l, init, num, i);
        assert FirstFitting(l, run, num, i);
        assert !FirstFitting(l, run, num, last);
      } else {
        assert forall i :: 0 <= i < last ==> !FirstFitting(l, init, num, i);
        NoneFits(l, init, num, last);
        if run[last].num == num && l.Fits(num, run[last].more, run[last].payload) {
          assert FirstFitting(l, run, num, last);
        }
      }
    }
  }

  /** Without a first fitting arrival there is no fitting arrival at all. */
  lemma {:induction false} NoneFits(l: Layout, run: seq<Arrival>, num: int, n: nat)
    requires l.Valid() && n <= |run|
    requires forall i :: 0 <= i < n ==> !FirstFitting(l, run, num, i)
    ensures forall j :: 0 <= j < n ==> !(run[j].num == num && l.Fits(num, run[j].more, run[j].payload))
  {
    if n > 0 {
      NoneFits(l, run, num, n - 1);
      assert !FirstFitting(l, run, num, n - 1);
    }
  }

  // ---------------------------------------------------------------- reading the body back

  /** A use of the reader: a read into a buffer, or a seek. */
  datatype Access = ReadUpTo(room: nat) | SeekTo(delta: int, whence: Whence)

  /** Where a seek leads, wherever a 64-bit offset can; elsewhere it fails and leads nowhere. */
  function Target(size: nat, at: nat, delta: int, whence: Whence): (to: nat) {
    var base := match whence case SeekCurrent => at case SeekEnd => size case _ => 0;
    if whence != OtherWhence && 0 <= base + delta <= MAX_INT64 then base + delta else at
  }

  /** The position after one access. */
  function Moved(size: nat, at: nat, op: Access): nat {
    match op
    case ReadUpTo(room) => at + Max(0, Min(room, size - at))
    case SeekTo(delta, whence) => Target(size, at, delta, whence)
  }

  /** The bytes of the body that an access at a position is to return. */
  function Given(body: seq<byte>, at: nat, op: Access): (bytes: seq<byte>) {
    if op.ReadUpTo? && at < |body| then body[at..Min(at + op.room, |body|)] else []
  }

  function Gives(body: seq<byte>, at: nat, ops: seq<Access>): (results: seq<seq<byte>>)
    decreases |ops|
  {
    if ops == [] then []
    else [Given(body, at, ops[0])] + Gives(body, Moved(|body|, at, ops[0]), ops[1..])
  }

  function Rooms(ops: seq<Access>): nat {
    if ops == [] then 0 else (if ops[0].ReadUpTo? then ops[0].room else 0) + Rooms(ops[1..])
  }

  /** A read and a later one that goes on where it stopped. */
  lemma ReadInTwo(body: seq<byte>, at: nat, first: nat, rest: nat)
    ensures Given(body, at, ReadUpTo(first)) + Given(body, Moved(|body|, at, ReadUpTo(first)), ReadUpTo(rest))
         == Given(body, at, ReadUpTo(first + rest))
  {}

  /** Reads of any sizes, from any position, are one read of their total: none skips or repeats a
      byte. */
  lemma {:induction false} ChunkingIsInvisible(body: seq<byte>, at: nat, accesses: seq<Access>)
    requires forall i :: 0 <= i < |accesses| ==> accesses[i].ReadUpTo?
    ensures Flatten(Gives(body, at, accesses)) == Given(body, at, ReadUpTo(Rooms(accesses)))
    decreases |accesses|
  {
    hide Given, Moved, Flatten;
    if accesses == [] {
      FlattenEmpty(body, at);
    } else {
      var op := accesses[0];
      var next := Moved(|body|, at, op);
      var rest := Gives(body, next, accesses[1..]);
      assert Gives(body, at, accesses) == [Given(body, at, op)] + rest;
      assert ([Given(body, at, op)] + rest)[1..] == rest;
      FlattenFront(Gives(body, at, accesses));
      ChunkingIsInvisible(body, next, accesses[1..]);
      ReadInTwo(body, at, op.room, Rooms(accesses[1..]));
    }
  }

  lemma FlattenEmpty(body: seq<byte>, at: nat)
    ensures Flatten<byte>([]) == Given(body, at, ReadUpTo(0)) == []
  {}

  /** The body of a complete assembly is far from the end of 64-bit offsets. */
  lemma SizeFits(assembly: Assembly)
    requires assembly.Valid()
    ensures 0 <= assembly.bodySize <= MAX_INT64
  {
    var l := assembly.Shape();
    l.Beyond(l.Count());
    MulMono(l.Count(), MAX_NUM + 1, l.blockSize);
  }

  /** Any sequence of reads and seeks on the reader of a complete assembly: every read returns the
      bytes of the body at its position, every seek goes where it can. */
  method ReadAnywhere(assembly: Assembly, ops: seq<Access>) returns (results: seq<seq<byte>>)
    requires assembly.Valid() && AllStored(assembly.Shape(), assembly.blocks)
    ensures results == Gives(Content(assembly.Shape(), assembly.blocks), 0, ops)
  {
    hide Content, Stored, AllStored, Layout.Count, Given, Moved;
    SizeFits(assembly);
    var reader := new SparseReader(assembly);
    ghost var body := Content(assembly.Shape(), assembly.blocks);
    BlockAt(assembly.Shape(), assembly.blocks, 0);
    results := [];
    for i := 0 to |ops|
      invariant reader.Valid() && fresh(reader) && reader.Shape() == assembly.Shape() && reader.blocks == assembly.blocks
      invariant reader.offset <= MAX_INT64
      invariant Gives(body, 0, ops) == results + Gives(body, reader.offset, ops[i..])
    {
      ghost var at := reader.offset;
      var result := Use(reader, ops[i]);
      assert ops[i..][0] == ops[i] && ops[i..][1..] == ops[i + 1..];
      ghost var rest := Gives(body, reader.offset, ops[i + 1..]);
      assert results + ([result] + rest) == results + [result] + rest;
      results := results + [result];
    }
  }

  method Use(reader: SparseReader, op: Access) returns (result: seq<byte>)
    requires reader.Valid() && reader.offset <= MAX_INT64 && reader.size <= MAX_INT64
    modifies reader`offset
    ensures reader.Valid() && reader.offset <= MAX_INT64
    ensures result == Given(Content(reader.Shape(), reader.blocks), old(reader.offset), op)
    ensures reader.offset == Moved(reader.size, old(reader.offset), op)
  {
    hide Content, Stored, AllStored, Layout.Count;
    BlockAt(reader.Shape(), reader.blocks, 0);
    match op {
      case ReadUpTo(room) =>
        var p := new byte[room](_ => 0);
        var n, err := reader.Read(p);
        result := p[..n];
      case SeekTo(delta, whence) =>
        var position, err := reader.Seek(delta, whence);
        result := [];
    }
  }

  lemma ReceivedNone(l: Layout)
    requires l.Valid()
    ensures ReceiveAll(l, map[], []) == map[] && Stored(l, map[])
  {
  }

  lemma ReceivedNext(l: Layout, run: seq<Arrival>, a: Arrival)
    requires l.Valid()
    ensures ReceiveAll(l, map[], run + [a]) == Receive(l, ReceiveAll(l, map[], run), a)
  {
    assert (run + [a])[..|run|] == run;
  }

  /** The two classes together: any delivery order of the sender's blocks. */
  method Deliver(sender: Sender, assembly: Assembly, order: seq<int>) returns (complete: bool)
    requires sender.Valid() && assembly.Valid() && assembly.blocks == map[]
    requires sender.Shape() == assembly.Shape() && |sender.body| == sender.bodySize
    requires forall i :: 0 <= i < |order| ==> 0 <= order[i] < sender.Shape().Count()
    modifies sender, assembly
    ensures assembly.Valid()
    ensures complete <==> forall n :: 0 <= n < sender.Shape().Count() ==> n in order
    ensures complete ==> AllStored(assembly.Shape(), assembly.blocks)
                         && Content(assembly.Shape(), assembly.blocks) == sender.body
  {
    hide AllStored, Layout.Count, Layout.Block, Content, ReceiveAll;
    complete := false;
    ghost var run: seq<Arrival> := [];
    ghost var l := sender.Shape();
    ReceivedNone(l);
    for i := 0 to |order|
      invariant assembly.Valid() && assembly.Shape() == l
      invariant |run| == i && IsDelivery(l, sender.body, run)
      invariant forall k :: 0 <= k < i ==> run[k].num == order[k]
      invariant assembly.blocks == ReceiveAll(l, map[], run)
      invariant i > 0 ==> (complete <==> AllStored(l, assembly.blocks))
      invariant i == 0 ==> !complete
    {
      var r := sender.Block(order[i]);
      var a := r.value;
      ghost var before := run;
      run := run + [a];
      ReceivedNext(l, before, a);
      var duplicate, err;
      complete, duplicate, err := assembly.Add(a.num, a.more, a.payload);
      assert err.None?;
    }
    EveryDeliveryIsExact(l, sender.body, run);
    if order == [] {
      assert 0 < l.Count() && 0 !in order;
    }
    forall n
      ensures Arrived(run, n) <==> n in order
    {
      if n in order {
        var k :| 0 <= k < |order| && order[k] == n;
        assert run[k].num == n;
      }
    }
  }

  /** Sending, receiving in any order and reading back in any way: for every body the sender takes,
      the reader exists if and only if every NUM has arrived, and yields that body. */
  method DeliverAndRead(body: seq<byte>, szx: nat, order: seq<int>, ops: seq<Access>)
    returns (results: Option<seq<seq<byte>>>)
    requires szx <= MAX_SZX && Layout(SzxSize(szx), |body|).Count() <= MAX_NUM + 1
    requires forall i :: 0 <= i < |order| ==> 0 <= order[i] < Layout(SzxSize(szx), |body|).Count()
    ensures results.Some? <==> forall n :: 0 <= n < Layout(SzxSize(szx), |body|).Count() ==> n in order
    ensures results.Some? ==> results.value == Gives(body, 0, ops)
  {
    hide Layout.Count, Content, AllStored, Gives;
    var sender := new Sender(body, szx, |body|);
    var assembly := new Assembly.Empty(szx, |body|, |body|, MAX_NUM + 1);
    var complete := Deliver(sender, assembly, order);
    if !complete {
      return None;
    }
    var bytes := ReadAnywhere(assembly, ops);
    return Some(bytes);
  }
}
