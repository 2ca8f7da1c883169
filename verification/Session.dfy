/** Splitting a TCP byte stream into messages. The session appends whatever a read returns to a
    buffer and takes whole frames off its front. */
module Session {
  import opened Base
  import opened Options
  import opened OptionCodec
  import opened Coder
  import opened Tcp

  /** A read fills a buffer whose size is a 16-bit setting. */
  const MAX_READ: int := 65535

  datatype SessionError = BadHeader(header: TcpError) | SizeExceeded | BadFrame(frame: TcpError) | Monitored

  datatype Next = NotReady | Fail(error: SessionError) | Got(msg: Message, rest: seq<byte>)

  /** The frame at the front of the buffer, given the number of bytes the code believes to have. */
  function TakeOf(buffer: seq<byte>, limit: int, available: int): (n: Next)
    requires 0 <= available <= |buffer|
    ensures n.Got? ==> |n.rest| < |buffer| && n.rest == buffer[|buffer| - |n.rest|..]
  {
    match DecodeHeader(buffer)
    case Err(ShortRead) => NotReady
    case Err(e) => Fail(BadHeader(e))
    case Ok(h) =>
      if h.messageLength > limit then Fail(SizeExceeded)
      else if available < h.messageLength then NotReady
      else
        match Decode(buffer[..h.messageLength])
        case Err(e) => Fail(BadFrame(e))
        case Ok(f) => Got(f.msg, buffer[f.used..])
  }

  /** What the code does: the buffer length is cast to 32 bits. */
  function Take(buffer: seq<byte>, limit: int): (n: Next)
    ensures n.Got? ==> |n.rest| < |buffer|
  {
    TakeOf(buffer, limit, |buffer| % TWO_32)
  }

  /** What it means to do. */
  function Ideal(buffer: seq<byte>, limit: int): (n: Next)
    ensures n.Got? ==> |n.rest| < |buffer|
  {
    TakeOf(buffer, limit, |buffer|)
  }

  datatype Drained = Drained(msgs: seq<Message>, rest: seq<byte>, error: Option<SessionError>)

  /** Frames off the front until none is whole or one is bad. */
  function Drain(buffer: seq<byte>, limit: int): (d: Drained)
    decreases |buffer|
  {
    if buffer == [] then Drained([], buffer, None)
    else
      match Take(buffer, limit)
      case NotReady => Drained([], buffer, None)
      case Fail(e) => Drained([], buffer, Some(e))
      case Got(m, rest) =>
        var d := Drain(rest, limit);
        d.(msgs := [m] + d.msgs)
  }

  function IdealDrain(buffer: seq<byte>, limit: int): (d: Drained)
    ensures |d.rest| <= |buffer|
    decreases |buffer|
  {
    if buffer == [] then Drained([], buffer, None)
    else
      match Ideal(buffer, limit)
      case NotReady => Drained([], buffer, None)
      case Fail(e) => Drained([], buffer, Some(e))
      case Got(m, rest) =>
        var d := IdealDrain(rest, limit);
        d.(msgs := [m] + d.msgs)
  }

  /** What is done with a decoded message: a request with unknown critical options is dropped, and so
      is what the request monitor drops; the monitor may also end the session. */
  datatype Verdict = Hand | Drop | Refuse

  /** The messages handed on, up to the first refusal; `from` numbers the first of them. */
  function Handed(msgs: seq<Message>, verdicts: nat -> Verdict, from: nat): (handed: seq<Message>)
    decreases |msgs|
  {
    if msgs == [] || verdicts(from) == Refuse then []
    else (if verdicts(from) == Hand then [msgs[0]] else []) + Handed(msgs[1..], verdicts, from + 1)
  }

  /** The monitor refuses one of the messages. */
  predicate Refused(msgs: seq<Message>, verdicts: nat -> Verdict, from: nat)
    decreases |msgs|
  {
    msgs != [] && (verdicts(from) == Refuse || Refused(msgs[1..], verdicts, from + 1))
  }

  lemma {:induction false} HandedInParts(a: seq<Message>, b: seq<Message>, verdicts: nat -> Verdict, from: nat)
    ensures Handed(a + b, verdicts, from) ==
            if Refused(a, verdicts, from) then Handed(a, verdicts, from)
            else Handed(a, verdicts, from) + Handed(b, verdicts, from + |a|)
    ensures Refused(a + b, verdicts, from) <==> Refused(a, verdicts, from) || Refused(b, verdicts, from + |a|)
    decreases |a|
  {
    hide Handed, Refused;
    HandedNothing(verdicts, from);
    if a == [] {
      assert a + b == b;
    } else {
      var rest := a[1..] + b;
      HandedInParts(a[1..], b, verdicts, from + 1);
      assert a + b == [a[0]] + rest && a == [a[0]] + a[1..];
      HandedNext(a[0], rest, verdicts, from);
      HandedNext(a[0], a[1..], verdicts, from);
    }
  }

  /** The session object: its read buffer, the messages decoded and those handed on so far. */
  class StreamSession {
    const maxMessageSize: int
    const verdicts: nat -> Verdict
    var buffer: seq<byte>
    var decoded: nat
    var received: seq<Message>

    constructor (maxMessageSize: int, verdicts: nat -> Verdict)
      requires 0 <= maxMessageSize <= MAX_UINT32
      ensures buffer == [] && received == [] && decoded == 0
      ensures this.maxMessageSize == maxMessageSize && this.verdicts == verdicts
    {
      this.maxMessageSize, this.verdicts := maxMessageSize, verdicts;
      buffer, decoded, received := [], 0, [];
    }

    /** Discards a message from the front, at most 4096 bytes at a time. */
    method SeekToNextMessage(msgSize: nat)
      requires msgSize <= |buffer|
      modifies this`buffer
      ensures buffer == old(buffer)[msgSize..]
    {
      if msgSize == |buffer| {
        buffer := [];
        return;
      }
      var trimmed := 0;
      while trimmed != msgSize
        invariant trimmed <= msgSize && buffer == old(buffer)[trimmed..]
        decreases msgSize - trimmed
      {
        var toRead := Min(4096, msgSize - trimmed);
        buffer := buffer[toRead..];
        trimmed := trimmed + toRead;
      }
    }

    method DecodeMessageFromBuffer() returns (n: Next)
      modifies this`buffer
      ensures n == Take(old(buffer), maxMessageSize)
      ensures buffer == if n.Got? then n.rest else old(buffer)
    {
      hide DecodeHeader, Decode;
      match DecodeHeader(buffer) {
        case Err(e) =>
          return if e == ShortRead then NotReady else Fail(BadHeader(e));
        case Ok(h) =>
          if h.messageLength > maxMessageSize {
            return Fail(SizeExceeded);
          }
          if |buffer| % TWO_32 < h.messageLength {
            return NotReady;
          }
          match Decode(buffer[..h.messageLength]) {
            case Err(e) =>
              return Fail(BadFrame(e));
            case Ok(f) =>
              SeekToNextMessage(f.used);
              return Got(f.msg, buffer);
          }
      }
    }

    /** Takes frames off the front until none is whole, one is bad, or the monitor refuses one. */
    method ProcessBuffer() returns (error: Option<SessionError>)
      modifies this`buffer, this`decoded, this`received
      ensures var d := Drain(old(buffer), maxMessageSize);
              && received == old(received) + Handed(d.msgs, verdicts, old(decoded))
              && if Refused(d.msgs, verdicts, old(decoded)) then error == Some(Monitored)
                 else buffer == d.rest && error == d.error && decoded == old(decoded) + |d.msgs|
    {
      hide Take, Handed, Refused;
      ghost var d := Drain(buffer, maxMessageSize);
      HandedNothing(verdicts, decoded);
      while |buffer| > 0
        invariant var now := Drain(buffer, maxMessageSize);
                  && now.rest == d.rest && now.error == d.error && decoded + |now.msgs| == old(decoded) + |d.msgs|
                  && received + Handed(now.msgs, verdicts, decoded) == old(received) + Handed(d.msgs, verdicts, old(decoded))
                  && Refused(now.msgs, verdicts, decoded) == Refused(d.msgs, verdicts, old(decoded))
        decreases |buffer|
      {
        var n := DecodeMessageFromBuffer();
        HandedNothing(verdicts, decoded);
        if n.Fail? {
          return Some(n.error);
        }
        if n.NotReady? {
          return None;
        }
        HandedNext(n.msg, Drain(buffer, maxMessageSize).msgs, verdicts, decoded);
        match verdicts(decoded) {
          case Refuse =>
            return Some(Monitored);
          case Hand =>
            received := received + [n.msg];
          case Drop =>
        }
        decoded := decoded + 1;
      }
      HandedNothing(verdicts, decoded);
      DrainNothing(maxMessageSize);
      return None;
    }

    /** The read loop, from an empty buffer until the peer stops sending, a frame is bad or the
        monitor refuses a message. */
    method Run(chunks: seq<seq<byte>>) returns (error: Option<SessionError>)
      requires buffer == [] && received == [] && decoded == 0
      modifies this`buffer, this`decoded, this`received
      ensures var d := Reading([], chunks, maxMessageSize);
              && received == Handed(d.msgs, verdicts, 0)
              && error == (if Refused(d.msgs, verdicts, 0) then Some(Monitored) else d.error)
              && (error.None? ==> buffer == d.rest)
    {
      hide Drain, Handed, Refused;
      var i := 0;
      HandedNothing(verdicts, 0);
      DrainNothing(maxMessageSize);
      error := ProcessBuffer();
      ghost var all := Reading([], chunks, maxMessageSize);
      while i < |chunks| && error.None?
        invariant 0 <= i <= |chunks|
        invariant error.None? ==>
                    var d := Reading(buffer, chunks[i..], maxMessageSize);
                    && received + Handed(d.msgs, verdicts, decoded) == Handed(all.msgs, verdicts, 0)
                    && Refused(d.msgs, verdicts, decoded) == Refused(all.msgs, verdicts, 0)
                    && d.rest == all.rest && d.error == all.error
        invariant error.Some? ==>
                    && received == Handed(all.msgs, verdicts, 0)
                    && error == if Refused(all.msgs, verdicts, 0) then Some(Monitored) else all.error
      {
        buffer := buffer + chunks[i];
        assert chunks[i..][0] == chunks[i] && chunks[i..][1..] == chunks[i + 1..];
        ghost var d := Drain(buffer, maxMessageSize);
        HandedInParts(d.msgs, Reading(d.rest, chunks[i + 1..], maxMessageSize).msgs, verdicts, decoded);
        error := ProcessBuffer();
        i := i + 1;
      }
      HandedNothing(verdicts, decoded);
    }
  }

  lemma HandedNothing(verdicts: nat -> Verdict, from: nat)
    ensures Handed([], verdicts, from) == [] && !Refused([], verdicts, from)
  {
  }

  lemma HandedNext(m: Message, more: seq<Message>, verdicts: nat -> Verdict, from: nat)
    ensures Handed([m] + more, verdicts, from) ==
            match verdicts(from) {
              case Refuse => []
              case Hand => [m] + Handed(more, verdicts, from + 1)
              case Drop => Handed(more, verdicts, from + 1)
            }
    ensures Refused([m] + more, verdicts, from) <==> verdicts(from) == Refuse || Refused(more, verdicts, from + 1)
  {
    assert ([m] + more)[1..] == more;
  }

  lemma DrainNothing(limit: int)
    ensures Drain([], limit) == Drained([], [], None)
  {
  }

  /** What the session does with a series of reads, starting from a waiting buffer. */
  function Reading(buffer: seq<byte>, chunks: seq<seq<byte>>, limit: int): (d: Drained)
    decreases |chunks|
  {
    if chunks == [] then Drained([], buffer, None)
    else
      var d := Drain(buffer + chunks[0], limit);
      if d.error.Some? then d
      else
        var later := Reading(d.rest, chunks[1..], limit);
        later.(msgs := d.msgs + later.msgs)
  }

  // ---------------------------------------------------------------- prefixes

  /** More bytes never change an answer, they only turn "not ready" into one. */
  lemma IdealIsStable(b: seq<byte>, more: seq<byte>, limit: int)
    requires !Ideal(b, limit).NotReady?
    ensures Ideal(b + more, limit) ==
            match Ideal(b, limit)
            case Got(m, rest) => Got(m, rest + more)
            case n => n
  {
    hide DecodeHeader, Decode;
    HeaderIsPrefixStable(b, more);
    if DecodeHeader(b).Ok? {
      var h := DecodeHeader(b).value;
      if h.messageLength <= |b| {
        assert (b + more)[..h.messageLength] == b[..h.messageLength];
        match Decode(b[..h.messageLength])
        case Err(_) =>
        case Ok(f) =>
          assert (b + more)[f.used..] == b[f.used..] + more;
      }
    }
  }

  /** Draining a longer buffer goes on where draining the shorter one stopped. */
  lemma {:induction false} DrainGoesOn(b: seq<byte>, more: seq<byte>, limit: int)
    ensures var d, all := IdealDrain(b, limit), IdealDrain(b + more, limit);
            if d.error.Some? then all.msgs == d.msgs && all.error == d.error
            else var later := IdealDrain(d.rest + more, limit);
                 all.msgs == d.msgs + later.msgs && all.rest == later.rest && all.error == later.error
    decreases |b|
  {
    hide Ideal;
    if b == [] {
      assert b + more == more;
    } else if !Ideal(b, limit).NotReady? {
      IdealIsStable(b, more, limit);
      if Ideal(b, limit).Got? {
        DrainGoesOn(Ideal(b, limit).rest, more, limit);
      }
    }
  }

  /** Below 2^32 bytes the cast loses nothing. */
  lemma {:induction false} NoWrap(b: seq<byte>, limit: int)
    requires |b| < TWO_32
    ensures Drain(b, limit) == IdealDrain(b, limit)
    decreases |b|
  {
    hide Take, Ideal;
    if b != [] {
      TakeIsIdeal(b, limit);
      if Ideal(b, limit).Got? {
        NoWrap(Ideal(b, limit).rest, limit);
      }
    }
  }

  lemma TakeIsIdeal(b: seq<byte>, limit: int)
    requires |b| < TWO_32
    ensures Take(b, limit) == Ideal(b, limit)
  {
    hide TakeOf;
    assert |b| % TWO_32 == |b|;
  }

  /** The bytes left waiting stay few enough for the cast, however much of the stream has arrived. */
  ghost predicate StaysSmall(stream: seq<byte>, limit: int) {
    forall i :: 0 <= i <= |stream| && IdealDrain(stream[..i], limit).error.None? ==>
                |IdealDrain(stream[..i], limit).rest| + MAX_READ < TWO_32
  }

  /** Chunking independence: however a stream is cut into reads, the session delivers the messages
      and ends with the error that one look at the whole stream gives. */
  lemma {:induction false} ChunkingIndependence(done: seq<byte>, chunks: seq<seq<byte>>, limit: int)
    requires IdealDrain(done, limit).error.None?
    requires forall i :: 0 <= i < |chunks| ==> |chunks[i]| <= MAX_READ
    requires StaysSmall(done + Flatten(chunks), limit)
    ensures var before, all := IdealDrain(done, limit), IdealDrain(done + Flatten(chunks), limit);
            var d := Reading(before.rest, chunks, limit);
            && all.msgs == before.msgs + d.msgs && all.error == d.error
            && (d.error.None? ==> all.rest == d.rest)
    decreases |chunks|
  {
    hide IdealDrain, Drain, StaysSmall, Flatten;
    if chunks == [] {
      FlattenNothing();
      assert done + [] == done;
      assert IdealDrain(done, limit).msgs + [] == IdealDrain(done, limit).msgs;
    } else {
      var stream, tail := done + Flatten(chunks), chunks[1..];
      FlattenFront(chunks);
      var next := done + chunks[0];
      assert stream == next + Flatten(tail);
      assert stream[..|done|] == done;
      WaitingFits(stream, limit, |done|);
      var waiting := IdealDrain(done, limit).rest;
      DrainGoesOn(done, chunks[0], limit);
      NoWrap(waiting + chunks[0], limit);
      if IdealDrain(next, limit).error.Some? {
        DrainGoesOn(next, Flatten(tail), limit);
      } else {
        ChunkingIndependence(next, tail, limit);
        Regroup(IdealDrain(done, limit).msgs, Drain(waiting + chunks[0], limit).msgs,
                Reading(Drain(waiting + chunks[0], limit).rest, tail, limit).msgs);
      }
    }
  }

  lemma FlattenNothing()
    ensures Flatten<byte>([]) == []
  {
  }

  lemma Regroup(a: seq<Message>, b: seq<Message>, c: seq<Message>)
    ensures a + b + c == a + (b + c)
  {
  }

  lemma WaitingFits(stream: seq<byte>, limit: int, i: nat)
    requires StaysSmall(stream, limit) && i <= |stream| && IdealDrain(stream[..i], limit).error.None?
    ensures |IdealDrain(stream[..i], limit).rest| + MAX_READ < TWO_32
  {
  }

  // ---------------------------------------------------------------- when the cast is harmless

  /** A buffer in which no frame is whole holds less than the limit, or a partial header. */
  lemma {:induction false} WaitingIsShort(b: seq<byte>, limit: int)
    requires IdealDrain(b, limit).error.None?
    ensures |IdealDrain(b, limit).rest| < Max(limit, 14)
    decreases |b|
  {
    hide Decode;
    if b == [] {
    } else {
      match Ideal(b, limit)
      case Got(_, rest) => WaitingIsShort(rest, limit);
      case NotReady =>
        if DecodeHeader(b) == Err(ShortRead) {
          assert |b| < 14;
        }
      case Fail(_) =>
    }
  }

  /** For any byte stream at all, a configured limit of up to 2^32 - 65535 keeps the session
      independent of chunking. */
  lemma ModestLimitsAreSafe(stream: seq<byte>, limit: int)
    requires 0 <= limit <= TWO_32 - MAX_READ
    ensures StaysSmall(stream, limit)
  {
    hide IdealDrain;
    forall i | 0 <= i <= |stream| && IdealDrain(stream[..i], limit).error.None?
      ensures |IdealDrain(stream[..i], limit).rest| + MAX_READ < TWO_32
    {
      WaitingIsShort(stream[..i], limit);
    }
  }

  /** The session treats a stream, cut like this, as one look at the whole stream would. */
  ghost predicate CutAgrees(chunks: seq<seq<byte>>, limit: int) {
    var d, all := Reading([], chunks, limit), IdealDrain(Flatten(chunks), limit);
    d.msgs == all.msgs && d.error == all.error && (d.error.None? ==> d.rest == all.rest)
  }

  ghost predicate Legal(chunks: seq<seq<byte>>) {
    forall i :: 0 <= i < |chunks| ==> |chunks[i]| <= MAX_READ
  }

  /** A frame that announces exactly the limit, padded to 2^32 bytes. */
  ghost function Tight(limit: int): (stream: seq<byte>)
    requires TWO_32 - MAX_READ < limit <= MAX_UINT32
    ensures |stream| == TWO_32
  {
    var e := limit - 6 - BASE15;
    [0xf0, e / 0x1000000, e / 0x10000 % 256, e / 256 % 256, e % 256, 0x45] + seq(TWO_32 - 6, _ => 0)
  }

  lemma TightHeader(limit: int, b: seq<byte>)
    requires TWO_32 - MAX_READ < limit <= MAX_UINT32 && b <= Tight(limit)
    ensures DecodeHeader(b) == if |b| < 6 then Err(ShortRead) else Ok(Header([], 6, limit, 0x45))
  {
    hide Announced;
    var e, t := limit - 6 - BASE15, Tight(limit);
    assert 0xf0 / 16 == 15 && 0xf0 % 16 == 0;
    if |b| >= 5 {
      assert b[1..5] == [t[1], t[2], t[3], t[4]];
      AnnouncedFour(e);
    }
    if |b| >= 6 {
      assert b[5] == t[5] == 0x45;
      assert b[6..6] == [];
    }
  }

  lemma AnnouncedFour(e: int)
    requires 0 <= e < TWO_32
    ensures Announced(15, [e / 0x1000000, e / 0x10000 % 256, e / 256 % 256, e % 256]) == BASE15 + e
  {
    FourBytes(e);
  }

  /** The cast makes the session wait for a frame it has. */
  lemma TightWaits(limit: int, b: seq<byte>)
    requires TWO_32 - MAX_READ < limit <= MAX_UINT32 && b <= Tight(limit) && (|b| < limit || |b| == TWO_32)
    ensures b == [] || Take(b, limit) == NotReady
    ensures |b| == TWO_32 ==> Ideal(b, limit) != NotReady
  {
    hide DecodeHeader, Decode, Tight;
    TightHeader(limit, b);
  }

  /** Waiting goes on through any reads that leave every beginning of the stream not ready. */
  lemma {:induction false} KeepsWaiting(buffer: seq<byte>, chunks: seq<seq<byte>>, limit: int)
    requires forall i :: 0 < i <= |chunks| ==>
               var b := buffer + Flatten(chunks[..i]); b == [] || Take(b, limit) == NotReady
    ensures Reading(buffer, chunks, limit) == Drained([], buffer + Flatten(chunks), None)
    decreases |chunks|
  {
    hide Take;
    if chunks == [] {
      assert buffer + Flatten(chunks) == buffer;
    } else {
      var next, tail := buffer + chunks[0], chunks[1..];
      assert chunks[..1] == [chunks[0]];
      FlattenFront([chunks[0]]);
      assert buffer + Flatten(chunks[..1]) == next;
      forall i | 0 < i <= |tail|
        ensures var b := next + Flatten(tail[..i]); b == [] || Take(b, limit) == NotReady
      {
        var longer := chunks[..i + 1];
        FlattenFront(longer);
        assert longer[1..] == tail[..i];
        assert buffer + Flatten(longer) == next + Flatten(tail[..i]);
      }
      KeepsWaiting(next, tail, limit);
      FlattenFront(chunks);
      assert next + Flatten(tail) == buffer + Flatten(chunks);
    }
  }

  /** A stream cut into reads of the largest size. */
  function Pieces(s: seq<byte>): (pieces: seq<seq<byte>>)
    decreases |s|
  {
    if |s| <= MAX_READ then [s] else [s[..MAX_READ]] + Pieces(s[MAX_READ..])
  }

  lemma {:induction false} PiecesAreLegal(s: seq<byte>)
    ensures Legal(Pieces(s)) && Flatten(Pieces(s)) == s
    decreases |s|
  {
    if |s| <= MAX_READ {
      FlattenFront([s]);
    } else {
      PiecesAreLegal(s[MAX_READ..]);
      FlattenFront(Pieces(s));
    }
  }

  lemma {:induction false} FlattenTake(parts: seq<seq<byte>>, i: nat)
    requires i <= |parts|
    ensures Flatten(parts[..i]) <= Flatten(parts)
  {
    FlattenConcat(parts[..i], parts[i..]);
    assert parts[..i] + parts[i..] == parts;
  }

  /** With a limit above the bound there is a stream, legally cut, that the session mishandles: it
      holds a whole frame and goes on waiting for it. */
  lemma CastCanMislead(limit: int) returns (chunks: seq<seq<byte>>)
    requires TWO_32 - MAX_READ < limit <= MAX_UINT32
    ensures Legal(chunks) && !CutAgrees(chunks, limit)
    ensures Reading([], chunks, limit) == Drained([], Flatten(chunks), None)
  {
    hide Tight, Take, Pieces, Ideal, Reading, Flatten;
    var stream := Tight(limit);
    var first, last := stream[..limit - 1], stream[limit - 1..];
    PiecesAreLegal(first);
    var pieces := Pieces(first);
    chunks := pieces + [last];
    FlattenConcat(pieces, [last]);
    FlattenOne(last);
    assert first + last == stream;
    forall i | 0 < i <= |chunks|
      ensures var b := [] + Flatten(chunks[..i]); b == [] || Take(b, limit) == NotReady
    {
      var b := Flatten(chunks[..i]);
      if i <= |pieces| {
        assert chunks[..i] == pieces[..i];
        FlattenTake(pieces, i);
        assert b <= first <= stream;
      } else {
        assert chunks[..i] == chunks;
      }
      assert [] + b == b;
      TightWaits(limit, b);
    }
    KeepsWaiting([], chunks, limit);
    assert [] + stream == stream;
    TightWaits(limit, stream);
  }

  lemma FlattenOne(s: seq<byte>)
    ensures Flatten([s]) == s
  {
    FlattenFront([s]);
  }

  /** The bound is sharp: every legal cut of every stream is treated like the whole stream if and only
      if the configured limit is at most 2^32 - 65535. */
  lemma CastIsHarmlessIff(limit: int)
    requires 0 <= limit <= MAX_UINT32
    ensures (forall chunks :: Legal(chunks) ==> CutAgrees(chunks, limit)) <==> limit <= TWO_32 - MAX_READ
  {
    if limit > TWO_32 - MAX_READ {
      var chunks := CastCanMislead(limit);
    } else {
      forall chunks | Legal(chunks)
        ensures CutAgrees(chunks, limit)
      {
        ModestLimitsAgree(chunks, limit);
      }
    }
  }

  lemma ModestLimitsAgree(chunks: seq<seq<byte>>, limit: int)
    requires 0 <= limit <= TWO_32 - MAX_READ && Legal(chunks)
    ensures CutAgrees(chunks, limit)
  {
    hide IdealDrain, StaysSmall, Reading, Flatten;
    var stream := Flatten(chunks);
    assert [] + stream == stream;
    IdealNothing(limit);
    ModestLimitsAreSafe(stream, limit);
    ChunkingIndependence([], chunks, limit);
  }

  // ---------------------------------------------------------------- streams of encoded messages

  /** A message the peer can send under the receiver's limit. */
  ghost predicate Sendable(m: Message, limit: int)
    ensures Sendable(m, limit) ==> |m.token| <= MAX_TOKEN
  {
    && |m.token| <= MAX_TOKEN && CarriableList(m.opts, 0)
    && |Body(m)| < MAX_BODY && |Wire(m)| <= limit
  }

  ghost predicate AllSendable(ms: seq<Message>, limit: int)
    ensures AllSendable(ms, limit) ==> forall i :: 0 <= i < |ms| ==> |ms[i].token| <= MAX_TOKEN
  {
    forall k :: 0 <= k < |ms| ==> Sendable(ms[k], limit)
  }

  function Wires(ms: seq<Message>): (bytes: seq<byte>)
    requires forall i :: 0 <= i < |ms| ==> |ms[i].token| <= MAX_TOKEN
  {
    if ms == [] then [] else Wire(ms[0]) + Wires(ms[1..])
  }

  function AllSeen(ms: seq<Message>): seq<Message> {
    if ms == [] then [] else [Seen(ms[0])] + AllSeen(ms[1..])
  }

  lemma FrameIsTaken(m: Message, rest: seq<byte>, limit: int)
    requires Sendable(m, limit)
    ensures Ideal(Wire(m) + rest, limit) == Got(Seen(m), rest)
  {
    hide Body, Head, DecodeHeader, Decode, CarriableList, Seen;
    var data := Wire(m) + rest;
    assert data == Head(m) + (Body(m) + rest);
    HeadDecodes(m, Body(m) + rest);
    assert data[..|Wire(m)|] == Wire(m) == Wire(m) + [];
    HeadSize(m);
    RoundTrips(m, []);
    assert data[|Wire(m)|..] == rest;
  }

  lemma HeadSize(m: Message)
    requires |m.token| <= MAX_TOKEN
    ensures 2 <= |Head(m)| <= 14
  {
    hide Body;
  }

  /** A proper prefix of a frame is not ready, whatever its length. */
  lemma PartialFrameWaits(m: Message, b: seq<byte>, limit: int)
    requires Sendable(m, limit) && b < Wire(m) && b != []
    ensures Ideal(b, limit) == NotReady
  {
    hide Ideal, Wire, Sendable;
    var more := Wire(m)[|b|..];
    assert b + more == Wire(m) == Wire(m) + [];
    FrameIsTaken(m, [], limit);
    if !Ideal(b, limit).NotReady? {
      IdealIsStable(b, more, limit);
    }
  }

  /** What any beginning of the stream leaves waiting is less than one frame. */
  lemma {:induction false} PrefixWaits(ms: seq<Message>, i: nat, limit: int)
    requires AllSendable(ms, limit)
    requires i <= |Wires(ms)|
    ensures IdealDrain(Wires(ms)[..i], limit).error.None?
    ensures |IdealDrain(Wires(ms)[..i], limit).rest| < MAX_BODY + 14
    decreases |ms|
  {
    hide Ideal, Sendable, Wire;
    var b := Wires(ms)[..i];
    if b != [] {
      var m := ms[0];
      FrameSize(m, limit);
      if i < |Wire(m)| {
        assert b == Wire(m)[..i];
        PartialFrameWaits(m, b, limit);
      } else {
        var rest := Wires(ms[1..])[..i - |Wire(m)|];
        assert b == Wire(m) + rest;
        FrameIsTaken(m, rest, limit);
        PrefixWaits(ms[1..], i - |Wire(m)|, limit);
      }
    }
  }

  lemma FrameSize(m: Message, limit: int)
    requires Sendable(m, limit)
    ensures |Wire(m)| < MAX_BODY + 14
  {
    HeadSize(m);
  }

  lemma {:induction false} WholeStream(ms: seq<Message>, limit: int)
    requires AllSendable(ms, limit)
    ensures IdealDrain(Wires(ms), limit) == Drained(AllSeen(ms), [], None)
    decreases |ms|
  {
    hide Ideal, Sendable, Wire, Seen;
    if ms != [] {
      FrameIsTaken(ms[0], Wires(ms[1..]), limit);
      WholeStream(ms[1..], limit);
      NotEmpty(ms[0]);
    }
  }

  lemma NotEmpty(m: Message)
    requires |m.token| <= MAX_TOKEN
    ensures Wire(m) != []
  {
    HeadSize(m);
  }

  /** Main theorem: for every list of messages within the limit, whatever 32-bit limit that is, and
      every way of cutting their frames into reads, the session delivers exactly those
      messages in order and consumes exactly their bytes. */
  lemma EveryCutDelivers(ms: seq<Message>, chunks: seq<seq<byte>>, limit: int)
    requires AllSendable(ms, limit)
    requires forall i :: 0 <= i < |chunks| ==> |chunks[i]| <= MAX_READ
    requires Flatten(chunks) == Wires(ms)
    ensures Reading([], chunks, limit) == Drained(AllSeen(ms), [], None)
  {
    hide IdealDrain, Wires, AllSeen, AllSendable, Reading, Flatten;
    var stream := Flatten(chunks);
    forall i | 0 <= i <= |stream| && IdealDrain(stream[..i], limit).error.None?
      ensures |IdealDrain(stream[..i], limit).rest| + MAX_READ < TWO_32
    {
      PrefixWaits(ms, i, limit);
    }
    assert [] + stream == stream;
    IdealNothing(limit);
    ChunkingIndependence([], chunks, limit);
    WholeStream(ms, limit);
  }

  lemma IdealNothing(limit: int)
    ensures IdealDrain([], limit) == Drained([], [], None)
  {
  }
}
