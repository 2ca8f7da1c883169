/** The stream coder (section 3.2 of RFC 8323): a frame announces the length of its options and
    payload, its token length, code and token. */
module Tcp {
  import opened Base
  import opened Options
  import opened OptionCodec
  import opened Coder

  const BASE13: int := 13
  const BASE14: int := 269
  const BASE15: int := 65805
  const MAX_BODY: int := 0x7fff_0000
  const MAX_UINT32: int := 0xffff_ffff
  const TWO_32: int := 0x1_0000_0000

  datatype TcpError = ShortRead | InvalidTokenLen | TooSmall | TooLong | BadOptions(cause: OptionError)

  datatype LengthField = LengthField(nibble: int, ext: seq<byte>)

  /** Length nibble and extension; lengths from MAX_BODY on have no encoding and yield 0. */
  function GetHeader(n: nat): (f: LengthField)
    ensures 0 <= f.nibble <= 15 && |f.ext| <= 4
  {
    if n < BASE13 then LengthField(n, [])
    else if n < BASE14 then LengthField(13, [n - BASE13])
    else if n < BASE15 then LengthField(14, [(n - BASE14) / 256, (n - BASE14) % 256])
    else if n < MAX_BODY then
      var e := n - BASE15;
      LengthField(15, [e / 0x1000000, e / 0x10000 % 256, e / 256 % 256, e % 256])
    else LengthField(0, [])
  }

  function Head(m: Message): (bytes: seq<byte>)
    requires |m.token| <= MAX_TOKEN
  {
    var f := GetHeader(|Body(m)|);
    [f.nibble * 16 + |m.token|] + f.ext + [m.code % 256] + m.token
  }

  function Wire(m: Message): (bytes: seq<byte>)
    requires |m.token| <= MAX_TOKEN
  {
    Head(m) + Body(m)
  }

  /** Writes the frame to the front of the buffer; the measured size is what gets written. */
  method Encode(m: Message, buf: array<byte>) returns (size: int, err: Option<TcpError>)
    modifies buf
    ensures |m.token| > MAX_TOKEN ==> err == Some(InvalidTokenLen) && buf[..] == old(buf[..])
    ensures |m.token| <= MAX_TOKEN ==> size == |Wire(m)|
                                       && err == if buf.Length < size then Some(TooSmall) else None
    ensures |m.token| <= MAX_TOKEN && err.Some? ==> buf[..] == old(buf[..])
    ensures err.None? ==> buf[..] == Wire(m) + old(buf[..])[size..]
  {
    hide EncodeList, Wrote, GetHeader;
    if |m.token| > MAX_TOKEN {
      return -1, Some(InvalidTokenLen);
    }
    var payloadLen := |m.payload|;
    if payloadLen > 0 {
      payloadLen := payloadLen + 1;
    }
    var none := new byte[0];
    var optionsLen, tooSmall := Marshal(none, 0, false, m.opts);
    var bufLen := payloadLen + optionsLen;
    assert bufLen == |Body(m)|;
    var f := GetHeader(bufLen);
    var head := [f.nibble * 16 + |m.token|] + f.ext + [m.code % 256] + m.token;
    assert head == Head(m);
    bufLen := bufLen + |head|;
    if buf.Length < bufLen {
      return bufLen, Some(TooSmall);
    }
    ghost var b0 := buf[..];
    var used;
    used, tooSmall := Put(buf, 0, true, head);
    FitsBehind(b0, buf[..], 0, head);
    ghost var b1 := buf[..];
    optionsLen, tooSmall := Marshal(buf, |head|, true, m.opts);
    WroteBoth(b0, b1, buf[..], 0, head, EncodeList(m.opts, 0), tooSmall);
    used, tooSmall := PutNext(buf, 0, tooSmall, |head| + optionsLen, Tail(m.payload), b0, head + EncodeList(m.opts, 0));
    assert head + EncodeList(m.opts, 0) + Tail(m.payload) == Wire(m);
    WroteWhole(b0, buf[..], Wire(m));
    return bufLen, None;
  }

  lemma WroteWhole(b0: seq<byte>, b1: seq<byte>, code: seq<byte>)
    requires Wrote(b0, b1, 0, code, false)
    ensures |code| <= |b0| && b1 == code + b0[|code|..]
  {
  }

  // ---------------------------------------------------------------- decoding

  datatype Header = Header(token: seq<byte>, length: nat, messageLength: nat, code: int)

  function ExtWidth(nibble: int): nat {
    if nibble == 13 then 1 else if nibble == 14 then 2 else if nibble == 15 then 4 else 0
  }

  /** Announced body length; `ext` holds the extension bytes. */
  function Announced(nibble: int, ext: seq<byte>): (n: nat)
    requires 0 <= nibble <= 15 && |ext| == ExtWidth(nibble)
  {
    if nibble == 13 then BASE13 + ext[0]
    else if nibble == 14 then BASE14 + (ext[0] as int) * 256 + ext[1]
    else if nibble == 15 then BASE15 + (((ext[0] as int) * 256 + ext[1]) * 256 + ext[2]) * 256 + ext[3]
    else nibble
  }

  function DecodeHeader(data: seq<byte>): (r: Result<Header, TcpError>)
    ensures r.Ok? ==> 2 <= r.value.length <= |data| && r.value.length <= r.value.messageLength <= MAX_UINT32
    ensures r.Ok? ==> r.value.length <= 14
  {
    if data == [] then Err(ShortRead)
    else
      var nibble, tkl := data[0] / 16, data[0] % 16;
      if tkl > MAX_TOKEN then Err(InvalidTokenLen)
      else
        var w := ExtWidth(nibble);
        if |data| < 1 + w then Err(ShortRead)
        else
          var total := 1 + w + 1 + tkl + Announced(nibble, data[1..1 + w]);
          if total > MAX_UINT32 then Err(TooLong)
          else if |data| < 2 + w + tkl then Err(ShortRead)
          else Ok(Header(data[2 + w..2 + w + tkl], 2 + w + tkl, total, data[1 + w]))
  }

  datatype Frame = Frame(msg: Message, used: nat)

  /** One whole frame off the front. The 32-bit cast of the available length wraps. */
  function Decode(data: seq<byte>): (r: Result<Frame, TcpError>)
    ensures r.Ok? ==> 2 <= r.value.used <= |data|
  {
    match DecodeHeader(data)
    case Err(e) => Err(e)
    case Ok(h) =>
      if |data| % TWO_32 < h.messageLength then Err(ShortRead)
      else
        match BodyOf(data[h.length..h.messageLength], TcpDefs(h.code))
        case Err(e) => Err(BadOptions(e))
        case Ok((opts, payload)) => Ok(Frame(Message(h.token, h.code, opts, payload), h.messageLength))
  }

  lemma LengthRoundTrips(n: nat)
    requires n < MAX_BODY
    ensures var f := GetHeader(n); |f.ext| == ExtWidth(f.nibble) && Announced(f.nibble, f.ext) == n
  {
    if BASE15 <= n {
      FourBytes(n - BASE15);
    } else if BASE14 <= n {
      assert (n - BASE14) / 256 * 256 + (n - BASE14) % 256 == n - BASE14;
    }
  }

  lemma FourBytes(e: nat)
    ensures e == ((e / 0x1000000 * 256 + e / 0x10000 % 256) * 256 + e / 256 % 256) * 256 + e % 256
  {
    assert e / 256 == e / 0x10000 * 256 + e / 256 % 256;
    assert e / 0x10000 == e / 0x1000000 * 256 + e / 0x10000 % 256;
  }

  function Announces(n: nat): nat {
    if n < MAX_BODY then n else 0
  }

  /** The header of a frame, whatever follows it. */
  lemma HeadDecodes(m: Message, rest: seq<byte>)
    requires |m.token| <= MAX_TOKEN
    ensures DecodeHeader(Head(m) + rest)
         == Ok(Header(m.token, |Head(m)|, |Head(m)| + Announces(|Body(m)|), m.code % 256))
  {
    hide Body, GetHeader, Announced;
    var n := |Body(m)|;
    var f, tkl := GetHeader(n), |m.token|;
    var data, w := Head(m) + rest, |f.ext|;
    assert w == ExtWidth(f.nibble) && Announced(f.nibble, f.ext) == Announces(n) by {
      if n < MAX_BODY {
        LengthRoundTrips(n);
      } else {
        NoLength(n);
      }
    }
    assert data[0] / 16 == f.nibble && data[0] % 16 == tkl;
    assert data[1..1 + w] == f.ext;
    assert data[1 + w] == m.code % 256;
    assert data[2 + w..2 + w + tkl] == m.token;
  }

  lemma NoLength(n: nat)
    requires MAX_BODY <= n
    ensures GetHeader(n) == LengthField(0, []) && Announced(0, []) == 0
  {
  }

  function Seen(m: Message): Message {
    Message(m.token, m.code % 256, Filtered(m.opts, TcpDefs(m.code % 256)), m.payload)
  }

  /** Round trip, with anything behind the frame: the frame comes back minus exactly the dropped
      options and exactly its bytes are consumed, if and only if the body is short enough
      to be announced and the length of the input, cut to 32 bits, still covers the frame. */
  lemma RoundTrips(m: Message, rest: seq<byte>)
    requires |m.token| <= MAX_TOKEN && CarriableList(m.opts, 0)
    ensures Decode(Wire(m) + rest) == Ok(Frame(Seen(m), |Wire(m)|)) <==>
            |Body(m)| < MAX_BODY && |Wire(m)| <= |Wire(m) + rest| % TWO_32
  {
    hide Body, BodyOf, TcpDefs, CarriableList, Filtered, Head;
    var data, h := Wire(m) + rest, |Head(m)|;
    assert data == Head(m) + (Body(m) + rest);
    HeadDecodes(m, Body(m) + rest);
    if |Body(m)| < MAX_BODY {
      assert data[h..h + |Body(m)|] == Body(m);
      BodyRoundTrips(m, TcpDefs(m.code % 256));
    }
  }

  /** Decoding looks at no byte behind the frame, and what it says of a short prefix is only
      ever that more is needed. */
  lemma HeaderIsPrefixStable(data: seq<byte>, more: seq<byte>)
    requires DecodeHeader(data) != Err(ShortRead)
    ensures DecodeHeader(data + more) == DecodeHeader(data)
  {
    hide Announced;
    var w := ExtWidth(data[0] / 16);
    if data[0] % 16 <= MAX_TOKEN && 1 + w <= |data| {
      assert (data + more)[1..1 + w] == data[1..1 + w];
      var tkl := data[0] % 16;
      if 2 + w + tkl <= |data| {
        assert (data + more)[2 + w..2 + w + tkl] == data[2 + w..2 + w + tkl];
      }
    }
  }
}
