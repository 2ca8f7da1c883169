/** Block1 transfer of a request body (RFC 7959) for block sizes 16 to 1024: the client cuts the
    body as the server's answers tell it, the server appends what continues its payload. */
module Block1 {
  import opened Base
  import opened Transfer

  const MAX_VALUE: int := 0xffffff
  const MAX_BLOCK: int := 0xffff7

  datatype Error = BadSzx | NumberExceedsLimit | BadValue | BadSeek | EntityIncomplete

  datatype BlockRef = BlockRef(szx: nat, num: int, more: bool)

  function EncodeBlock(b: BlockRef): Result<int, Error> {
    if b.szx > 7 then Err(BadSzx)
    else if b.num < 0 || b.num > MAX_BLOCK then Err(NumberExceedsLimit)
    else Ok(b.num * 16 + (if b.more then 8 else 0) + b.szx)
  }

  function DecodeBlock(v: nat): Result<BlockRef, Error> {
    if v > MAX_VALUE then Err(BadValue)
    else if v / 16 > MAX_BLOCK then Err(NumberExceedsLimit)
    else Ok(BlockRef(v % 8, v / 16, v / 8 % 2 == 1))
  }

  /** The option round trips both ways. Its limit on NUM is eight short of the 20 bits there are. */
  lemma BlockOptionRoundTrips(b: BlockRef, v: nat)
    ensures EncodeBlock(b).Ok? <==> b.szx <= 7 && 0 <= b.num <= 0xfffff - 8
    ensures EncodeBlock(b).Ok? ==> 0 <= EncodeBlock(b).value && DecodeBlock(EncodeBlock(b).value) == Ok(b)
    ensures DecodeBlock(v).Ok? ==> EncodeBlock(DecodeBlock(v).value) == Ok(v)
  {
    if EncodeBlock(b).Ok? {
      var m := if b.more then 1 else 0;
      DivUnique(EncodeBlock(b).value, 16, b.num);
      DivUnique(EncodeBlock(b).value, 8, 2 * b.num + m);
    }
    assert v == 8 * (v / 8) + v % 8;
    assert v / 8 == 2 * (v / 16) + v / 8 % 2;
  }

  /** A request as it travels: a block of a body, or a whole body without the option. */
  datatype Message = Message(block: BlockRef, payload: seq<byte>, size1: nat) | Whole(body: seq<byte>)

  /** The message holds the block of the body that its option says, and tells rightly whether
      more follow. */
  ghost predicate Genuine(body: seq<byte>, m: Message) {
    match m
    case Whole(b) => b == body
    case Message(block, payload, size1) =>
      && block.szx <= MAX_SZX && 0 <= block.num && size1 == |body|
      && var off := block.num * SzxSize(block.szx);
         && 0 <= off <= |body|
         && payload == body[off..Min(off + SzxSize(block.szx), |body|)]
         && block.more == (off + |payload| < |body|)
  }

  // ---------------------------------------------------------------- client

  /** The first message: the whole body if it fits one block. */
  method PrepareSendingRequest(body: seq<byte>, maxSzx: nat) returns (m: Message)
    requires maxSzx <= MAX_SZX
    ensures Genuine(body, m)
    ensures m.Whole? <==> |body| <= SzxSize(maxSzx)
    ensures m.Message? ==> m.block == BlockRef(maxSzx, 0, true) && |m.payload| == SzxSize(maxSzx)
  {
    if |body| <= SzxSize(maxSzx) {
      return Whole(body);
    }
    return Message(BlockRef(maxSzx, 0, true), body[0..SzxSize(maxSzx)], |body|);
  }

  /** The block after the one the server has answered, in the size the server asks for. */
  method CreateSendingMessage(body: seq<byte>, maxSzx: nat, answer: nat) returns (r: Result<Message, Error>)
    requires maxSzx <= MAX_SZX
    ensures r.Ok? ==> r.value.Message? && Genuine(body, r.value)
    ensures DecodeBlock(answer).Ok? ==>
            var a := DecodeBlock(answer).value;
            var szx := if a.szx > maxSzx then maxSzx else a.szx;
            && (r.Ok? <==> (a.num + 1) * SzxSize(szx) <= |body| && a.num + 1 <= MAX_BLOCK)
            && (r.Ok? ==> r.value.block.szx == szx && r.value.block.num == a.num + 1)
    ensures DecodeBlock(answer).Err? ==> r.Err?
  {
    hide DecodeBlock;
    DecodedNum(answer);
    var decoded := DecodeBlock(answer);
    if decoded.Err? {
      return Err(decoded.error);
    }
    var szx := if decoded.value.szx > maxSzx then maxSzx else decoded.value.szx;
    var length := SzxSize(szx);
    var off := decoded.value.num * length + length;
    NextOffset(decoded.value.num, length);
    if off > |body| {
      return Err(BadSeek);
    }
    var read := Min(length, |body| - off);
    var more := off + read != |body|;
    var num := off / length;
    var block := BlockRef(szx, num, more);
    if EncodeBlock(block).Err? {
      return Err(EncodeBlock(block).error);
    }
    return Ok(Message(block, body[off..off + read], |body|));
  }

  lemma DecodedNum(v: nat)
    ensures DecodeBlock(v).Ok? ==> 0 <= DecodeBlock(v).value.num
  {
  }

  lemma NextOffset(num: int, length: int)
    requires 0 < length
    ensures num * length + length == (num + 1) * length
    ensures (num * length + length) / length == num + 1
  {
    DivUnique(num * length + length, length, num + 1);
  }

  // ---------------------------------------------------------------- server

  datatype Reply = Continue(block: nat) | EntityTooLarge | Refused(error: Error) | Handled

  predicate Exceeds(maxBody: int, m: Message, off: int)
    requires m.Message?
  {
    maxBody > 0 && Max(off + |m.payload|, m.size1) > maxBody
  }

  /** What one block does to the payload held. It is taken if it starts within the payload, or for
      the last block at its end, and is full unless it is the last. The payload grows only at
      its end; the last block hands it to the handler; an error forgets it. Otherwise the
      server answers with the same NUM and the smaller of the two block sizes. */
  ghost predicate Takes(maxSzx: nat, maxBody: int, before: Option<seq<byte>>, m: Message,
                        after: Option<seq<byte>>, reply: Reply, delivered: Option<seq<byte>>)
    requires m.Message? && m.block.szx <= MAX_SZX && 0 <= m.block.num
  {
    var have := if before.Some? then before.value else [];
    var off := m.block.num * SzxSize(m.block.szx);
    var more := m.block.more;
    var ok := && (before.Some? || m.block.num == 0) && !Exceeds(maxBody, m, off)
              && (if more then off <= |have| && |m.payload| == SzxSize(m.block.szx) else off == |have|);
    && (delivered.Some? <==> ok && !more) && (reply.Handled? <==> ok && !more) && (reply.Continue? <==> ok && more)
    && (delivered.Some? ==> delivered.value == have + m.payload)
    && (ok && more ==>
          && after == Some(if off == |have| then have + m.payload else have)
          && DecodeBlock(reply.block) == Ok(BlockRef(if m.block.szx > maxSzx then maxSzx else m.block.szx, m.block.num, true)))
    && (!(ok && more) ==> after.None?)
  }

  /** The server's state for one transfer: the payload received so far, if there is any. */
  class Receiver {
    const maxSzx: nat
    const maxBody: int               // 0 for no limit
    var payload: Option<seq<byte>>

    constructor (maxSzx: nat, maxBody: int)
      requires maxSzx <= MAX_SZX
      ensures this.maxSzx == maxSzx && this.maxBody == maxBody && payload.None?
    {
      this.maxSzx, this.maxBody, payload := maxSzx, maxBody, None;
    }

    method Forget()
      modifies this
      ensures payload.None?
    {
      payload := None;
    }

    /** One block request. */
    method ProcessReceivedBlock(m: Message) returns (reply: Reply, delivered: Option<seq<byte>>)
      requires m.Message? && m.block.szx <= MAX_SZX && 0 <= m.block.num <= MAX_BLOCK && maxSzx <= MAX_SZX
      modifies this
      ensures Takes(maxSzx, maxBody, old(payload), m, payload, reply, delivered)
    {
      var szx := m.block.szx;
      if payload.None? {
        if m.block.num != 0 {
          return Refused(EntityIncomplete), None;
        }
        if !m.block.more {
          if Exceeds(maxBody, m, 0) {
            return EntityTooLarge, None;
          }
          return Handled, Some(m.payload);
        }
        szx := if szx > maxSzx then maxSzx else szx;
        payload := Some([]);
      }
      reply, delivered := ProcessCachedBlock(m, szx);
    }

    method ProcessCachedBlock(m: Message, szx: nat) returns (reply: Reply, delivered: Option<seq<byte>>)
      requires m.Message? && szx <= m.block.szx <= MAX_SZX && 0 <= m.block.num <= MAX_BLOCK && maxSzx <= MAX_SZX
      requires payload.Some? && (szx == m.block.szx || (m.block.num == 0 && szx == maxSzx))
      modifies this
      ensures Takes(maxSzx, maxBody, old(payload), m, payload, reply, delivered)
    {
      var have := payload.value;
      if m.block.more && |m.payload| != SzxSize(m.block.szx) {
        payload := None;
        return Refused(EntityIncomplete), None;
      }
      var off := m.block.num * SzxSize(szx);
      if off > |have| || (off < |have| && !m.block.more) {
        payload := None;
        return Refused(EntityIncomplete), None;
      }
      if Exceeds(maxBody, m, off) {
        payload := None;
        return EntityTooLarge, None;
      }
      if off == |have| {
        payload := Some(have[..off] + m.payload);
        assert have[..off] == have;
        if !m.block.more {
          delivered := payload;
          payload := None;
          return Handled, delivered;
        }
      }
      var answer := BlockRef(if szx > maxSzx then maxSzx else szx, m.block.num, true);
      BlockOptionRoundTrips(answer, 0);
      return Continue(EncodeBlock(answer).value), None;
    }
  }

  // ---------------------------------------------------------------- any network

  /** What reaches the server: a message of the transfer, any number of times and in any order,
      or the end of the state's lifetime. */
  datatype Input = Arrives(m: Message) | Expires

  ghost predicate FromClient(body: seq<byte>, inputs: seq<Input>) {
    forall i :: 0 <= i < |inputs| && inputs[i].Arrives? ==>
      Genuine(body, inputs[i].m) && (inputs[i].m.Message? ==> inputs[i].m.block.num <= MAX_BLOCK)
  }

  ghost predicate IsPrefix(payload: Option<seq<byte>>, body: seq<byte>) {
    payload.Some? ==> payload.value <= body
  }

  /** A genuine block keeps the payload a prefix of the body, and what it completes is the body. */
  lemma TakesKeepsPrefix(maxSzx: nat, maxBody: int, before: Option<seq<byte>>, m: Message,
                         after: Option<seq<byte>>, reply: Reply, delivered: Option<seq<byte>>, body: seq<byte>)
    requires m.Message? && Genuine(body, m) && IsPrefix(before, body)
    requires Takes(maxSzx, maxBody, before, m, after, reply, delivered)
    ensures IsPrefix(after, body) && (delivered.Some? ==> delivered.value == body)
  {
    var have := if before.Some? then before.value else [];
    var off := m.block.num * SzxSize(m.block.szx);
    if off == |have| {
      assert body[..off] == have;
      assert have + m.payload == body[..off + |m.payload|];
    }
  }

  /** Block1 safety: under loss, repetition, reordering and expiry, the server holds a prefix of the
      client's body and gives the handler nothing but that body. */
  method Serve(body: seq<byte>, maxSzx: nat, maxBody: int, inputs: seq<Input>)
    returns (delivered: seq<seq<byte>>, held: Option<seq<byte>>)
    requires maxSzx <= MAX_SZX && FromClient(body, inputs)
    ensures forall i :: 0 <= i < |delivered| ==> delivered[i] == body
    ensures IsPrefix(held, body)
  {
    hide Takes, Genuine;
    var server := new Receiver(maxSzx, maxBody);
    delivered := [];
    for i := 0 to |inputs|
      invariant server.maxSzx == maxSzx && fresh(server) && IsPrefix(server.payload, body)
      invariant forall k :: 0 <= k < |delivered| ==> delivered[k] == body
    {
      match inputs[i] {
        case Expires => server.Forget();
        case Arrives(Whole(b)) =>
          WholeIsBody(body, b);
          delivered := delivered + [b];
        case Arrives(m) =>
          GenuineRef(body, m);
          ghost var before := server.payload;
          var reply, done := server.ProcessReceivedBlock(m);
          TakesKeepsPrefix(maxSzx, server.maxBody, before, m, server.payload, reply, done, body);
          if done.Some? {
            delivered := delivered + [done.value];
          }
      }
    }
    return delivered, server.payload;
  }

  lemma WholeIsBody(body: seq<byte>, b: seq<byte>)
    requires Genuine(body, Whole(b))
    ensures b == body
  {
  }

  lemma GenuineRef(body: seq<byte>, m: Message)
    requires m.Message? && Genuine(body, m)
    ensures m.block.szx <= MAX_SZX && 0 <= m.block.num
  {
  }

  // ---------------------------------------------------------------- a quiet network

  /** Whether the transfer can be carried out: the server's limit, and the last NUM. */
  predicate Deliverable(body: seq<byte>, clientSzx: nat, serverSzx: nat, maxBody: int)
    requires clientSzx <= MAX_SZX && serverSzx <= MAX_SZX
  {
    || |body| <= SzxSize(clientSzx)
    || ((maxBody <= 0 || |body| <= maxBody) && (|body| - 1) / SzxSize(MinSzx(clientSzx, serverSzx)) <= MAX_BLOCK)
  }

  function MinSzx(a: nat, b: nat): nat {
    if a > b then b else a
  }

  /** Block sizes divide each other, so the smaller blocks meet the end of a larger one. */
  lemma SizesDivide(a: nat, b: nat) returns (q: nat)
    requires b <= a <= MAX_SZX
    ensures 1 <= q && SzxSize(a) == q * SzxSize(b)
  {
    q := SzxSize(a) / SzxSize(b);
    if b == 0 {
    } else if b == 1 {
    } else if b == 2 {
    } else if b == 3 {
    } else if b == 4 {
    } else if b == 5 {
    }
  }

  /** The exchange on its way: the first block, or block `num` in the agreed size, with the server
      holding the first block whole and everything before `num`. */
  ghost predicate OnTheWay(body: seq<byte>, clientSzx: nat, serverSzx: nat, m: Message, payload: Option<seq<byte>>)
    requires clientSzx <= MAX_SZX && serverSzx <= MAX_SZX
  {
    && |body| > SzxSize(clientSzx) && m.Message? && Genuine(body, m)
    && if m.block.num == 0 then m.block.szx == clientSzx && payload.None?
       else
         var off := m.block.num * SzxSize(MinSzx(clientSzx, serverSzx));
         && m.block.szx == MinSzx(clientSzx, serverSzx) && 0 <= off < |body|
         && payload == Some(body[..Max(SzxSize(clientSzx), off)])
  }

  /** Nothing but the limit stops a block on its way; the last one is the last NUM. */
  lemma BlockIsTaken(body: seq<byte>, clientSzx: nat, serverSzx: nat, maxBody: int, m: Message,
                     before: Option<seq<byte>>, after: Option<seq<byte>>, reply: Reply, delivered: Option<seq<byte>>)
    requires clientSzx <= MAX_SZX && serverSzx <= MAX_SZX && OnTheWay(body, clientSzx, serverSzx, m, before)
    requires Takes(serverSzx, maxBody, before, m, after, reply, delivered)
    ensures maxBody > 0 && |body| > maxBody ==> reply.EntityTooLarge? || reply.Refused?
    ensures maxBody <= 0 || |body| <= maxBody ==>
            && (if m.block.more then reply.Continue? else delivered.Some?)
            && (m.block.more ==> (m.block.num + 1) * SzxSize(MinSzx(clientSzx, serverSzx)) < |body|)
            && (!m.block.more ==> m.block.num == (|body| - 1) / SzxSize(MinSzx(clientSzx, serverSzx)))
            && (m.block.more ==>
                  after == Some(body[..Max(SzxSize(clientSzx), (m.block.num + 1) * SzxSize(MinSzx(clientSzx, serverSzx)))]))
  {
    var unit, k := SzxSize(MinSzx(clientSzx, serverSzx)), m.block.num;
    var q := SizesDivide(clientSzx, MinSzx(clientSzx, serverSzx));
    if k == 0 {
      MulMono(1, q, unit);
      assert [] + m.payload == body[..SzxSize(clientSzx)];
    } else {
      Walk(k, unit, q);
      var have, off := Max(q * unit, k * unit), k * unit;
      if !m.block.more {
        DivUnique(|body| - 1, unit, k);
      }
      assert off == have ==> body[..have] + m.payload == body[..off + |m.payload|];
    }
  }

  /** Before the end of the first block the walk stays inside it; from there on it is the end. */
  lemma Walk(k: nat, unit: nat, q: nat)
    requires 0 < unit
    ensures (k + 1) * unit == k * unit + unit
    ensures k < q ==> (k + 1) * unit <= q * unit && k * unit < q * unit
    ensures q <= k ==> q * unit <= k * unit
  {
    if k < q {
      MulMono(k + 1, q, unit);
    } else {
      MulMono(q, k, unit);
    }
  }

  /** Block1 completion: with nothing lost, the exchange delivers the client's body exactly when the
      server's limit and the range of NUM allow it, also when the server shrinks the blocks
      and the client walks again over what the server already holds. */
  method Exchange(body: seq<byte>, clientSzx: nat, serverSzx: nat, maxBody: int) returns (delivered: Option<seq<byte>>)
    requires clientSzx <= MAX_SZX && serverSzx <= MAX_SZX
    ensures delivered == if Deliverable(body, clientSzx, serverSzx, maxBody) then Some(body) else None
  {
    hide Takes, SzxSize, DecodeBlock;
    var m := PrepareSendingRequest(body, clientSzx);
    if m.Whole? {
      return Some(m.body);
    }
    var server := new Receiver(serverSzx, maxBody);
    ghost var unit := SzxSize(MinSzx(clientSzx, serverSzx));
    while true
      invariant server.maxSzx == serverSzx && server.maxBody == maxBody && fresh(server)
      invariant OnTheWay(body, clientSzx, serverSzx, m, server.payload) && m.block.num <= MAX_BLOCK
      invariant m.block.num > 0 ==> m.block.num <= |body| && (maxBody <= 0 || |body| <= maxBody)
      decreases |body| - m.block.num
    {
      ghost var before := server.payload;
      var reply, done := server.ProcessReceivedBlock(m);
      BlockIsTaken(body, clientSzx, serverSzx, maxBody, m, before, server.payload, reply, done);
      TakesKeepsPrefix(serverSzx, maxBody, before, m, server.payload, reply, done, body);
      AnswerNames(serverSzx, maxBody, before, m, server.payload, reply, done);
      if done.Some? {
        return done;
      }
      if !reply.Continue? {
        return None;
      }
      var next := CreateSendingMessage(body, clientSzx, reply.block);
      LastIsLater(|body|, unit, m.block.num + 1);
      if next.Err? {
        return None;
      }
      m := next.value;
    }
  }

  lemma AnswerNames(maxSzx: nat, maxBody: int, before: Option<seq<byte>>, m: Message,
                    after: Option<seq<byte>>, reply: Reply, delivered: Option<seq<byte>>)
    requires m.Message? && m.block.szx <= MAX_SZX && 0 <= m.block.num
    requires Takes(maxSzx, maxBody, before, m, after, reply, delivered)
    ensures reply.Continue? ==> DecodeBlock(reply.block) == Ok(BlockRef(MinSzx(m.block.szx, maxSzx), m.block.num, true))
    ensures delivered.Some? ==> !m.block.more
    ensures reply.Continue? ==> m.block.more
  {
  }

  lemma LastIsLater(size: int, unit: int, k: int)
    requires 16 <= unit
    ensures 0 <= k && k * unit < size ==> k <= (size - 1) / unit && k <= size
  {
    if 0 <= k && k * unit < size {
      DivMono(k * unit, size - 1, unit);
      DivUnique(k * unit, unit, k);
    }
  }
}
