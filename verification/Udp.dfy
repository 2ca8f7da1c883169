/** The datagram coder (section 3 of RFC 7252). */
module Udp {
  import opened Base
  import opened Options
  import opened OptionCodec
  import opened Coder

  datatype Datagram = Datagram(typ: int, mid: int, msg: Message)

  datatype UdpError = InvalidMessageId | InvalidType | InvalidTokenLen | TooSmall
                    | MessageTruncated | InvalidVersion | BadOptions(cause: OptionError)

  /** Version 1, then the type, then the token length; a type above 3 runs into the version bits. */
  function HeadByte(typ: int, tokenLen: int): (b: byte)
    requires 0 <= tokenLen <= 8
  {
    var high := typ / 4 % 4;
    (if high < 2 then 64 else 192) + typ % 4 * 16 + tokenLen
  }

  /** The wire form of a datagram that passes the encoder's checks. */
  function Wire(d: Datagram): (bytes: seq<byte>)
    requires |d.msg.token| <= MAX_TOKEN
  {
    [HeadByte(d.typ, |d.msg.token|), d.msg.code % 256, d.mid / 256 % 256, d.mid % 256] + d.msg.token + Body(d.msg)
  }

  /** What the encoder refuses, in the order it looks. */
  function Refusal(d: Datagram): (e: Option<UdpError>) {
    if !(0 <= d.mid <= 0xffff) then Some(InvalidMessageId)
    else if !(0 <= d.typ <= 255) then Some(InvalidType)
    else if |d.msg.token| > MAX_TOKEN then Some(InvalidTokenLen)
    else None
  }

  method Size(m: Message) returns (r: Result<int, UdpError>)
    ensures |m.token| > MAX_TOKEN ==> r == Err(InvalidTokenLen)
    ensures |m.token| <= MAX_TOKEN ==> r == Ok(4 + |m.token| + |Body(m)|)
  {
    if |m.token| > MAX_TOKEN {
      return Err(InvalidTokenLen);
    }
    var size := 4 + |m.token|;
    var none := new byte[0];
    var optionsLen, tooSmall := Marshal(none, 0, false, m.opts);
    var payloadLen := |m.payload|;
    if payloadLen > 0 {
      payloadLen := payloadLen + 1;
    }
    return Ok(size + payloadLen + optionsLen);
  }

  /** Writes the datagram to the front of the buffer. The size measured beforehand is always
      the number of bytes written, so a large enough buffer never fails half way. */
  method Encode(d: Datagram, buf: array<byte>) returns (size: int, err: Option<UdpError>)
    modifies buf
    ensures Refusal(d).Some? ==> err == Refusal(d) && buf[..] == old(buf[..])
    ensures Refusal(d).None? ==> size == |Wire(d)|
                                 && err == if buf.Length < size then Some(TooSmall) else None
    ensures Refusal(d).None? && err.Some? ==> buf[..] == old(buf[..])
    ensures err.None? ==> buf[..] == Wire(d) + old(buf[..])[size..]
  {
    hide Wire;
    var m := d.msg;
    if !(0 <= d.mid <= 0xffff) {
      return -1, Some(InvalidMessageId);
    }
    if !(0 <= d.typ <= 255) {
      return -1, Some(InvalidType);
    }
    var measured := Size(m);
    if measured.Err? {
      return -1, Some(measured.error);
    }
    size := measured.value;
    WireSize(d);
    if buf.Length < size {
      return size, Some(TooSmall);
    }
    Write(d, buf);
    return size, None;
  }

  lemma WireSize(d: Datagram)
    requires |d.msg.token| <= MAX_TOKEN
    ensures |Wire(d)| == 4 + |d.msg.token| + |Body(d.msg)|
  {
    hide EncodeList, Tail;
  }

  /** The writing half, for a buffer that is large enough. */
  method Write(d: Datagram, buf: array<byte>)
    requires |d.msg.token| <= MAX_TOKEN && |Wire(d)| <= buf.Length
    modifies buf
    ensures buf[..] == Wire(d) + old(buf[..])[|Wire(d)|..]
  {
    hide EncodeList, Wrote, Tail, HeadByte;
    var m := d.msg;
    ghost var b0 := buf[..];
    var head := [HeadByte(d.typ, |m.token|), d.msg.code % 256, d.mid / 256 % 256, d.mid % 256];
    var used, tooSmall := Put(buf, 0, true, head);
    var at := used;
    used, tooSmall := PutNext(buf, 0, tooSmall, at, m.token, b0, head);
    at := at + used;
    ghost var written := head + m.token;
    FitsBehind(b0, buf[..], 0, written);
    ghost var b1 := buf[..];
    used, tooSmall := Marshal(buf, at, true, m.opts);
    WroteBoth(b0, b1, buf[..], 0, written, EncodeList(m.opts, 0), tooSmall);
    written := written + EncodeList(m.opts, 0);
    at := at + used;
    used, tooSmall := PutNext(buf, 0, tooSmall, at, Tail(m.payload), b0, written);
    assert written + Tail(m.payload) == Wire(d);
    WroteAll(b0, buf[..], Wire(d));
  }

  lemma WroteAll(b0: seq<byte>, b1: seq<byte>, code: seq<byte>)
    requires Wrote(b0, b1, 0, code, false)
    ensures |code| <= |b0| && b1 == code + b0[|code|..]
  {
  }

  function Decode(data: seq<byte>): (r: Result<Datagram, UdpError>)
  {
    if |data| < 4 then Err(MessageTruncated)
    else if data[0] / 64 != 1 then Err(InvalidVersion)
    else
      var tokenLen := data[0] % 16;
      if tokenLen > 8 then Err(InvalidTokenLen)
      else if |data| - 4 < tokenLen then Err(MessageTruncated)
      else
        match BodyOf(data[4 + tokenLen..], CoapDefs())
        case Err(e) => Err(BadOptions(e))
        case Ok((opts, payload)) =>
          Ok(Datagram(data[0] / 16 % 4, (data[2] as int) * 256 + data[3],
                      Message(data[4..4 + tokenLen], data[1], opts, payload)))
  }

  /** What the receiver sees of a datagram. */
  function Seen(d: Datagram): Datagram {
    d.(msg := d.msg.(opts := Filtered(d.msg.opts, CoapDefs())))
  }

  lemma HeadByteSplits(typ: int, tokenLen: int)
    requires 0 <= typ <= 255 && 0 <= tokenLen <= 8
    ensures HeadByte(typ, tokenLen) % 16 == tokenLen
    ensures HeadByte(typ, tokenLen) / 16 % 4 == typ % 4
    ensures HeadByte(typ, tokenLen) / 64 == if typ / 4 % 4 < 2 then 1 else 3
  {
  }

  /** Round trip. For every datagram the encoder accepts whose options the wire can carry, decoding
      gives back the datagram minus exactly the dropped options if and only if its type
      is one of the four and its code fits a byte; the decoder refuses the wire form
      precisely when the type has overwritten the version. */
  lemma RoundTrips(d: Datagram)
    requires Refusal(d).None? && CarriableList(d.msg.opts, 0) && 0 <= d.msg.code <= 0xffff
    ensures Decode(Wire(d)) == Ok(Seen(d)) <==> d.typ <= 3 && d.msg.code < 256
    ensures Decode(Wire(d)) == Err(InvalidVersion) <==> d.typ / 4 % 4 >= 2
    ensures d.typ / 4 % 4 < 2 ==> Decode(Wire(d)) == Ok(Seen(d.(typ := d.typ % 4, msg := d.msg.(code := d.msg.code % 256))))
  {
    hide BodyOf, Body, CoapDefs, CarriableList, Filtered, HeadByte;
    var data, n := Wire(d), |d.msg.token|;
    HeadByteSplits(d.typ, n);
    BodyRoundTrips(d.msg, CoapDefs());
    assert data[4..4 + n] == d.msg.token;
    assert data[4 + n..] == Body(d.msg);
  }

  /** Every datagram accepted has sorted options, all of them kept ones; sent on as it is, it
      is accepted again and means the same. */
  lemma AcceptedIsStable(data: seq<byte>)
    requires Decode(data).Ok?
    ensures var d := Decode(data).value;
            && Refusal(d).None? && Sorted(d.msg.opts)
            && (forall i :: 0 <= i < |d.msg.opts| ==> Kept(d.msg.opts[i], CoapDefs()))
            && Decode(Wire(d)) == Ok(d)
  {
    hide BodyOf, Body, CoapDefs, Kept, CarriableList, Filtered, HeadByte;
    BodyIsSound(data[4 + data[0] % 16..], CoapDefs());
    RoundTrips(Decode(data).value);
  }
}
