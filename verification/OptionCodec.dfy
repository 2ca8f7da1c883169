/** Option lists on the wire (section 3.1 of RFC 7252): each option is a number relative to
    the one before, a length, and a value; numbers and lengths above 12 spill into one or
    two extension bytes. */
module OptionCodec {
  import opened Base
  import opened Options

  const BYTE_CODE: int := 13
  const BYTE_ADDEND: int := 13
  const WORD_CODE: int := 14
  const WORD_ADDEND: int := 269
  const RESERVED: int := 15
  const MARKER: byte := 0xff
  /** The largest number two extension bytes can carry. */
  const MAX_EXTENDED: int := 0xffff + 269

  datatype OptionError = Truncated | UnexpectedExtend | MarkerWithoutPayload | NumberTooLarge | OptionsTooSmall

  // ---------------------------------------------------------------- nibble and extension

  datatype Spill = Spill(nibble: int, ext: int)

  function Extended(v: int): (s: Spill)
  {
    if v < BYTE_ADDEND then Spill(v, 0)
    else if v >= WORD_ADDEND then Spill(WORD_CODE, v - WORD_ADDEND)
    else Spill(BYTE_CODE, v - BYTE_ADDEND)
  }

  /** Extension bytes; the casts truncate. */
  function ExtBytes(s: Spill): (bytes: seq<byte>)
    ensures |bytes| <= 2
  {
    if s.nibble == BYTE_CODE then [s.ext % 256]
    else if s.nibble == WORD_CODE then [s.ext / 256 % 256, s.ext % 256]
    else []
  }

  datatype Field = Field(value: int, used: nat)

  function ParseExt(data: seq<byte>, nibble: int): (r: Result<Field, OptionError>)
    ensures r.Ok? ==> r.value.used <= |data| && (0 <= nibble ==> 0 <= r.value.value)
    ensures r.Err? ==> r.error == Truncated
  {
    if nibble == BYTE_CODE then
      if |data| < 1 then Err(Truncated) else Ok(Field(data[0] + BYTE_ADDEND, 1))
    else if nibble == WORD_CODE then
      if |data| < 2 then Err(Truncated) else Ok(Field(data[0] * 256 + data[1] + WORD_ADDEND, 2))
    else Ok(Field(nibble, 0))
  }

  lemma ExtRoundTrips(v: int, rest: seq<byte>)
    requires 0 <= v <= MAX_EXTENDED
    ensures 0 <= Extended(v).nibble < RESERVED
    ensures ParseExt(ExtBytes(Extended(v)) + rest, Extended(v).nibble) == Ok(Field(v, |ExtBytes(Extended(v))|))
  {
  }

  /** Numbers have only one wire form. */
  lemma ExtIsCanonical(data: seq<byte>, nibble: int)
    requires 0 <= nibble < RESERVED && ParseExt(data, nibble).Ok?
    ensures var f := ParseExt(data, nibble).value;
            && 0 <= f.value <= MAX_EXTENDED
            && Extended(f.value).nibble == nibble
            && ExtBytes(Extended(f.value)) == data[..f.used]
  {
  }

  // ---------------------------------------------------------------- one option

  /** Delta and length nibbles share the first byte; a negative delta is truncated to it. */
  function HeaderBytes(delta: int, length: nat): (bytes: seq<byte>)
  {
    var d, l := Extended(delta), Extended(length);
    [(d.nibble * 16 + l.nibble) % 256] + ExtBytes(d) + ExtBytes(l)
  }

  function EncodeOne(o: Opt, previous: int): (bytes: seq<byte>)
    ensures bytes != []
  {
    HeaderBytes(o.id - previous, |o.value|) + o.value
  }

  function EncodeList(opts: seq<Opt>, previous: int): (bytes: seq<byte>)
  {
    if opts == [] then [] else EncodeOne(opts[0], previous) + EncodeList(opts[1..], opts[0].id)
  }

  // ---------------------------------------------------------------- writing into a buffer

  /** `code` went into a buffer at `at`, or it did not fit and only bytes from `at` on may
      have changed. */
  ghost predicate Wrote(before: seq<byte>, after: seq<byte>, at: nat, code: seq<byte>, tooSmall: bool) {
    && |after| == |before| && at <= |before|
    && after[..at] == before[..at]
    && (!tooSmall ==> at + |code| <= |before| && after == before[..at] + code + before[at + |code|..])
  }

  lemma WroteBoth(b0: seq<byte>, b1: seq<byte>, b2: seq<byte>, at: nat, x: seq<byte>, y: seq<byte>, tooSmall: bool)
    requires Wrote(b0, b1, at, x, false) && Wrote(b1, b2, at + |x|, y, tooSmall)
    ensures Wrote(b0, b2, at, x + y, tooSmall)
  {
    assert b2[..at] == b2[..at + |x|][..at] == b1[..at];
    if !tooSmall {
      assert b1[..at + |x|] == b0[..at] + x;
      assert b1[at + |x|..] == b0[at + |x|..];
      assert b1[at + |x| + |y|..] == b1[at + |x|..][|y|..] == b0[at + |x| + |y|..];
    }
  }

  lemma WroteNothing(b: seq<byte>, at: nat, code: seq<byte>)
    requires at <= |b|
    ensures Wrote(b, b, at, code, true) && Wrote(b, b, at, [], false)
  {
    assert b[..at] + [] + b[at..] == b;
  }

  /** Losing the room for the first part loses it for the whole. */
  lemma WroteTooMuch(b0: seq<byte>, b1: seq<byte>, at: nat, x: seq<byte>, y: seq<byte>)
    requires Wrote(b0, b1, at, x, true)
    ensures Wrote(b0, b1, at, x + y, true)
  {
  }

  /** Writes `code` if it fits behind `at`; reports its length either way. */
  method Put(buf: array<byte>, at: nat, given: bool, code: seq<byte>) returns (length: nat, tooSmall: bool)
    requires at <= buf.Length
    modifies buf
    ensures length == |code|
    ensures tooSmall <==> !given || buf.Length - at < |code|
    ensures Wrote(old(buf[..]), buf[..], at, code, tooSmall)
  {
    length, tooSmall := |code|, !given || buf.Length - at < |code|;
    ghost var before := buf[..];
    if tooSmall {
      WroteNothing(before, at, code);
      return;
    }
    for i := 0 to |code|
      invariant buf[..] == before[..at] + code[..i] + before[at + i..]
    {
      buf[at + i] := code[i];
    }
  }

  /** Header of one option: head byte and extensions, as long as there is room. Writing with no
      buffer (`given` false) only measures. */
  method MarshalHeader(buf: array<byte>, at: nat, given: bool, delta: int, n: nat)
    returns (length: nat, tooSmall: bool)
    requires at <= buf.Length
    modifies buf
    ensures length == |HeaderBytes(delta, n)|
    ensures tooSmall <==> !given || buf.Length - at < length
    ensures Wrote(old(buf[..]), buf[..], at, HeaderBytes(delta, n), tooSmall)
  {
    hide Wrote;
    var d, l := Extended(delta), Extended(n);
    ghost var b0 := buf[..];
    var size, used;
    size, tooSmall := Put(buf, at, given, [(d.nibble * 16 + l.nibble) % 256]);
    length := size;
    ghost var b1 := buf[..];
    used, tooSmall := PutNext(buf, at, tooSmall, length, ExtBytes(d), b0, [(d.nibble * 16 + l.nibble) % 256]);
    length := length + used;
    used, tooSmall := PutNext(buf, at, tooSmall, length, ExtBytes(l), b0, [(d.nibble * 16 + l.nibble) % 256] + ExtBytes(d));
    length := length + used;
  }

  /** Continues a sequence of writes that began at `at`: after a part that did not fit, the
      rest is only measured. */
  method PutNext(buf: array<byte>, at: nat, failed: bool, done: nat, code: seq<byte>,
                 ghost b0: seq<byte>, ghost written: seq<byte>)
    returns (used: nat, tooSmall: bool)
    requires |b0| == buf.Length && at <= buf.Length && done == |written|
    requires Wrote(b0, buf[..], at, written, failed)
    modifies buf
    ensures used == |code|
    ensures tooSmall <==> failed || buf.Length - at < done + |code|
    ensures Wrote(b0, buf[..], at, written + code, tooSmall)
  {
    if failed {
      WroteTooMuch(b0, buf[..], at, written, code);
      return |code|, true;
    }
    ghost var b1 := buf[..];
    used, tooSmall := Put(buf, at + done, true, code);
    WroteBoth(b0, b1, buf[..], at, written, code, tooSmall);
  }

  method MarshalOption(buf: array<byte>, at: nat, given: bool, o: Opt, previous: int)
    returns (length: nat, tooSmall: bool)
    requires at <= buf.Length
    modifies buf
    ensures length == |EncodeOne(o, previous)|
    ensures tooSmall <==> !given || buf.Length - at < length
    ensures Wrote(old(buf[..]), buf[..], at, EncodeOne(o, previous), tooSmall)
  {
    hide Wrote, HeaderBytes;
    ghost var b0 := buf[..];
    var size;
    size, tooSmall := MarshalHeader(buf, at, given, o.id - previous, |o.value|);
    length := size;
    var used;
    used, tooSmall := PutNext(buf, at, tooSmall, length, o.value, b0, HeaderBytes(o.id - previous, |o.value|));
    length := length + used;
  }

  /** The whole list, measured to the end even when it does not fit: the size pass with no
      buffer and the write pass agree on every byte. */
  method Marshal(buf: array<byte>, at: nat, given: bool, opts: seq<Opt>) returns (length: nat, tooSmall: bool)
    requires at <= buf.Length
    modifies buf
    ensures length == |EncodeList(opts, 0)|
    ensures tooSmall <==> !given || buf.Length - at < length
    ensures Wrote(old(buf[..]), buf[..], at, EncodeList(opts, 0), tooSmall)
  {
    hide Wrote, EncodeOne;
    ghost var b0 := buf[..];
    var previous := 0;
    length, tooSmall := 0, !given;
    WroteNothing(b0, at, []);
    ghost var written: seq<byte> := [];
    assert [] + EncodeList(opts, 0) == EncodeList(opts, 0);
    for i := 0 to |opts|
      invariant length == |written| && written + EncodeList(opts[i..], previous) == EncodeList(opts, 0)
      invariant tooSmall <==> !given || buf.Length - at < length
      invariant Wrote(b0, buf[..], at, written, tooSmall)
    {
      var o := opts[i];
      ghost var code := EncodeOne(o, previous);
      ghost var b1 := buf[..];
      var used;
      if tooSmall {
        used := |EncodeOne(o, previous)|;
        WroteTooMuch(b0, b1, at, written, code);
      } else {
        FitsBehind(b0, b1, at, written);
        used, tooSmall := MarshalOption(buf, at + length, true, o, previous);
        WroteBoth(b0, b1, buf[..], at, written, code, tooSmall);
      }
      EncodeStep(opts[i..], previous);
      assert opts[i..][1..] == opts[i + 1..];
      assert written + (code + EncodeList(opts[i + 1..], o.id)) == written + code + EncodeList(opts[i + 1..], o.id);
      previous := o.id;
      length := length + used;
      written := written + code;
    }
    assert opts[|opts|..] == [] && written + [] == written;
  }

  lemma FitsBehind(b0: seq<byte>, b1: seq<byte>, at: nat, code: seq<byte>)
    requires Wrote(b0, b1, at, code, false)
    ensures at + |code| <= |b1| == |b0|
  {
  }

  datatype One = One(opt: Opt, used: nat)

  /** One option off the front of `data`, which starts with no payload marker. */
  function ParseOne(data: seq<byte>, previous: nat): (r: Result<One, OptionError>)
    requires data != [] && data[0] != MARKER
    ensures r.Ok? ==> 0 < r.value.used <= |data| && previous <= r.value.opt.id <= 0xffff
    ensures r.Err? ==> r.error != OptionsTooSmall
  {
    var deltaNibble, lengthNibble := data[0] / 16, data[0] % 16;
    if deltaNibble == RESERVED || lengthNibble == RESERVED then Err(UnexpectedExtend)
    else
      var afterHead := data[1..];
      match ParseExt(afterHead, deltaNibble)
      case Err(e) => Err(e)
      case Ok(delta) =>
        var afterDelta := afterHead[delta.used..];
        match ParseExt(afterDelta, lengthNibble)
        case Err(e) => Err(e)
        case Ok(length) =>
          var body := afterDelta[length.used..];
          if |body| < length.value then Err(Truncated)
          else if previous + delta.value > 0xffff then Err(NumberTooLarge)
          else Ok(One(Opt(previous + delta.value, body[..length.value]),
                      1 + delta.used + length.used + length.value))
  }

  /** An option the wire can carry after an option numbered `previous`. */
  predicate Carriable(o: Opt, previous: int) {
    0 <= previous <= o.id <= 0xffff && |o.value| <= MAX_EXTENDED
  }

  lemma OneRoundTrips(o: Opt, previous: int, rest: seq<byte>)
    requires Carriable(o, previous)
    ensures EncodeOne(o, previous)[0] != MARKER
    ensures ParseOne(EncodeOne(o, previous) + rest, previous) == Ok(One(o, |EncodeOne(o, previous)|))
  {
    hide ParseOne, ParseExt, Extended, ExtBytes;
    var d, l := Extended(o.id - previous), Extended(|o.value|);
    var x, y := ExtBytes(d), ExtBytes(l);
    ExtRoundTrips(o.id - previous, y + o.value + rest);
    ExtRoundTrips(|o.value|, o.value + rest);
    NibblesRecovered(d.nibble, l.nibble);
    ParsesAs((d.nibble * 16 + l.nibble) % 256, x, y, o, rest, previous, EncodeOne(o, previous) + rest);
  }

  /** The parser on a message laid out as head byte, extensions, value and rest. */
  lemma ParsesAs(head: byte, x: seq<byte>, y: seq<byte>, o: Opt, rest: seq<byte>, previous: nat, data: seq<byte>)
    requires data == [head] + x + y + o.value + rest
    requires head / 16 != RESERVED && head % 16 != RESERVED && Carriable(o, previous)
    requires ParseExt(x + (y + o.value + rest), head / 16) == Ok(Field(o.id - previous, |x|))
    requires ParseExt(y + (o.value + rest), head % 16) == Ok(Field(|o.value|, |y|))
    ensures ParseOne(data, previous) == Ok(One(o, 1 + |x| + |y| + |o.value|))
  {
    hide ParseExt;
    assert data[1..] == x + (y + o.value + rest);
    assert data[1..][|x|..] == y + (o.value + rest);
    assert data[1..][|x|..][|y|..] == o.value + rest;
    assert (o.value + rest)[..|o.value|] == o.value;
  }

  lemma NibblesRecovered(d: int, l: int)
    requires 0 <= d < 15 && 0 <= l < 15
    ensures var b := (d * 16 + l) % 256; b / 16 == d && b % 16 == l && b != 255
  {
    var b := d * 16 + l;
    DivUnique(b, 256, 0);
    DivUnique(b, 16, d);
    DivMod(b, 256);
    DivMod(b, 16);
  }

  lemma DivMod(n: int, d: int)
    requires 0 < d
    ensures n == n / d * d + n % d
  {
  }

  /** Whatever bytes parse as an option are the bytes that option encodes to. */
  lemma OneIsCanonical(data: seq<byte>, previous: nat)
    requires data != [] && data[0] != MARKER && ParseOne(data, previous).Ok?
    ensures var one := ParseOne(data, previous).value;
            Carriable(one.opt, previous) && EncodeOne(one.opt, previous) == data[..one.used]
  {
    hide ParseExt, Extended, ExtBytes;
    var head := data[1..];
    var delta := ParseExt(head, data[0] / 16).value;
    var afterDelta := head[delta.used..];
    var length := ParseExt(afterDelta, data[0] % 16).value;
    var value := afterDelta[length.used..][..length.value];
    ExtIsCanonical(head, data[0] / 16);
    ExtIsCanonical(afterDelta, data[0] % 16);
    Reassembled(data, delta.used, length.used, length.value);
    assert (data[0] / 16 * 16 + data[0] % 16) % 256 == data[0];
  }

  lemma Reassembled(data: seq<byte>, a: nat, b: nat, c: nat)
    requires 1 + a + b + c <= |data|
    ensures [data[0]] + data[1..][..a] + data[1..][a..][..b] + data[1..][a..][b..][..c] == data[..1 + a + b + c]
  {
  }

  // ---------------------------------------------------------------- option lists

  datatype Parsed = Parsed(opts: seq<Opt>, used: nat)

  /** All options up to the payload marker or the end; a marker must be followed by payload
      and is counted as used. */
  function Parse(data: seq<byte>, previous: nat): (r: Result<Parsed, OptionError>)
    ensures r.Ok? ==> r.value.used <= |data|
    decreases |data|
  {
    if data == [] then Ok(Parsed([], 0))
    else if data[0] == MARKER then
      if |data| == 1 then Err(MarkerWithoutPayload) else Ok(Parsed([], 1))
    else
      match ParseOne(data, previous)
      case Err(e) => Err(e)
      case Ok(one) =>
        match Parse(data[one.used..], one.opt.id)
        case Err(e) => Err(e)
        case Ok(more) => Ok(Parsed([one.opt] + more.opts, one.used + more.used))
  }

  /** A list the wire can carry: ascending numbers, values that fit the length field. */
  ghost predicate CarriableList(opts: seq<Opt>, previous: int)
  {
    opts == [] || (Carriable(opts[0], previous) && CarriableList(opts[1..], opts[0].id))
  }

  lemma {:induction false} SortedIsCarriable(opts: seq<Opt>, previous: int)
    requires Sorted(opts) && 0 <= previous
    requires forall i :: 0 <= i < |opts| ==> Carriable(opts[i], previous)
    ensures CarriableList(opts, previous)
    decreases |opts|
  {
    if opts != [] {
      SortedIsCarriable(opts[1..], opts[0].id);
    }
  }

  lemma {:induction false} CarriableIsSorted(opts: seq<Opt>, previous: int)
    requires CarriableList(opts, previous)
    ensures Sorted(opts) && forall i :: 0 <= i < |opts| ==> previous <= opts[i].id <= 0xffff
    decreases |opts|
  {
    if opts != [] {
      CarriableIsSorted(opts[1..], opts[0].id);
    }
  }

  /** What may follow the options in a message. */
  function Tail(payload: seq<byte>): (bytes: seq<byte>) {
    if payload == [] then [] else [MARKER] + payload
  }

  /** Encoding then parsing gives the list back and stops right before the payload. */
  lemma {:induction false} ListRoundTrips(opts: seq<Opt>, previous: int, payload: seq<byte>)
    requires CarriableList(opts, previous) && 0 <= previous
    ensures Parse(EncodeList(opts, previous) + Tail(payload), previous)
         == Ok(Parsed(opts, |EncodeList(opts, previous)| + if payload == [] then 0 else 1))
    decreases |opts|
  {
    hide ParseOne, EncodeOne;
    if opts == [] {
      assert EncodeList(opts, previous) + Tail(payload) == Tail(payload);
    } else {
      EncodeStep(opts, previous);
      ListRoundTrips(opts[1..], opts[0].id, payload);
      RoundTripStep(opts, previous, payload);
    }
  }

  lemma RoundTripStep(opts: seq<Opt>, previous: int, payload: seq<byte>)
    requires opts != [] && 0 <= previous && Carriable(opts[0], previous)
    requires Parse(EncodeList(opts[1..], opts[0].id) + Tail(payload), opts[0].id)
          == Ok(Parsed(opts[1..], |EncodeList(opts[1..], opts[0].id)| + if payload == [] then 0 else 1))
    ensures Parse(EncodeList(opts, previous) + Tail(payload), previous)
         == Ok(Parsed(opts, |EncodeList(opts, previous)| + if payload == [] then 0 else 1))
  {
    hide ParseOne, EncodeOne, Parse, EncodeList, CarriableList, Tail, Carriable;
    EncodeStep(opts, previous);
    var first, code := EncodeOne(opts[0], previous), EncodeList(opts[1..], opts[0].id);
    var later := code + Tail(payload);
    OneRoundTrips(opts[0], previous, later);
    assert first + code + Tail(payload) == first + later;
    ParseStep(first + later, previous, opts[0], |first|);
    assert (first + later)[|first|..] == later;
    assert [opts[0]] + opts[1..] == opts;
  }

  lemma Glue(data: seq<byte>, a: nat, code: seq<byte>, b: nat)
    requires a + b <= |data| && data[a..] == code + Tail(data[a..][b..])
    ensures data == data[..a] + code + Tail(data[a + b..])
  {
    assert data[a..][b..] == data[a + b..];
    assert data == data[..a] + data[a..];
  }

  lemma EncodeStep(opts: seq<Opt>, previous: int)
    requires opts != []
    ensures EncodeList(opts, previous) == EncodeOne(opts[0], previous) + EncodeList(opts[1..], opts[0].id)
    ensures CarriableList(opts, previous) <==> Carriable(opts[0], previous) && CarriableList(opts[1..], opts[0].id)
  {
    hide EncodeOne;
  }

  /** One step of the parser. */
  lemma ParseStep(data: seq<byte>, previous: nat, o: Opt, used: nat)
    requires data != [] && data[0] != MARKER && ParseOne(data, previous) == Ok(One(o, used))
    ensures Parse(data, previous) ==
            match Parse(data[used..], o.id)
            case Err(e) => Err(e)
            case Ok(more) => Ok(Parsed([o] + more.opts, used + more.used))
  {
    hide ParseOne;
  }

  /** Everything the parser accepts is exactly the encoding of what it returns: the wire
      form of an option list is unique. */
  lemma {:induction false} ListIsCanonical(data: seq<byte>, previous: nat)
    requires Parse(data, previous).Ok?
    ensures var p := Parse(data, previous).value;
            && CarriableList(p.opts, previous)
            && data == EncodeList(p.opts, previous) + Tail(data[p.used..])
    decreases |data|
  {
    hide ParseOne, EncodeOne;
    if data == [] {
    } else if data[0] == MARKER {
      assert data == [MARKER] + data[1..];
    } else {
      var one := ParseOne(data, previous).value;
      ParseStep(data, previous, one.opt, one.used);
      ListIsCanonical(data[one.used..], one.opt.id);
      CanonicalStep(data, previous, one.opt, one.used);
    }
  }

  lemma CanonicalStep(data: seq<byte>, previous: nat, o: Opt, used: nat)
    requires data != [] && data[0] != MARKER && ParseOne(data, previous) == Ok(One(o, used))
    requires Parse(data[used..], o.id).Ok?
    requires var q := Parse(data[used..], o.id).value;
             && CarriableList(q.opts, o.id)
             && data[used..] == EncodeList(q.opts, o.id) + Tail(data[used..][q.used..])
             && Parse(data, previous) == Ok(Parsed([o] + q.opts, used + q.used))
    ensures var p := Parse(data, previous).value;
            CarriableList(p.opts, previous) && data == EncodeList(p.opts, previous) + Tail(data[p.used..])
  {
    hide ParseOne, EncodeOne, Parse, EncodeList, CarriableList, Tail, Carriable;
    var q, p := Parse(data[used..], o.id).value, Parse(data, previous).value;
    OneIsCanonical(data, previous);
    assert p.opts[1..] == q.opts;
    EncodeStep(p.opts, previous);
    Glue(data, used, EncodeList(q.opts, o.id), q.used);
  }

  // ---------------------------------------------------------------- receiving with definitions

  datatype OptionDef = OptionDef(minLen: int, maxLen: int, known: bool)

  type Defs = map<int, OptionDef>

  /** Options the receiver keeps: not number 0, not of unknown format, and not a known elective
      option of illegal length (sections 5.4.1 and 5.4.3 of RFC 7252). */
  predicate Kept(o: Opt, defs: Defs) {
    && o.id != 0
    && (o.id in defs ==> defs[o.id].known
                         && (defs[o.id].minLen <= |o.value| <= defs[o.id].maxLen || o.id % 2 != 0))
  }

  function Filtered(opts: seq<Opt>, defs: Defs): (kept: seq<Opt>)
    ensures |kept| <= |opts|
  {
    if opts == [] then [] else (if Kept(opts[0], defs) then [opts[0]] else []) + Filtered(opts[1..], defs)
  }

  /** Unmarshalling into a list with room for `room` more options, or without limit. The
      capacity is checked before every option, also one that is then dropped. */
  function Unmarshal(data: seq<byte>, defs: Defs, previous: nat, room: Option<nat>): (r: Result<Parsed, OptionError>)
    decreases |data|
  {
    if data == [] then Ok(Parsed([], 0))
    else if data[0] == MARKER then
      if |data| == 1 then Err(MarkerWithoutPayload) else Ok(Parsed([], 1))
    else
      match ParseOne(data, previous)
      case Err(e) => Err(e)
      case Ok(one) =>
        if room == Some(0) then Err(OptionsTooSmall)
        else
          var kept := Kept(one.opt, defs);
          var left := if room.Some? && kept then Some(room.value - 1) else room;
          match Unmarshal(data[one.used..], defs, one.opt.id, left)
          case Err(e) => Err(e)
          case Ok(more) => Ok(Parsed((if kept then [one.opt] else []) + more.opts, one.used + more.used))
  }

  /** Without a capacity limit, unmarshalling is parsing followed by the filter. */
  lemma {:induction false} UnmarshalIsParseAndFilter(data: seq<byte>, defs: Defs, previous: nat)
    ensures match Parse(data, previous)
            case Ok(p) => Unmarshal(data, defs, previous, None) == Ok(Parsed(Filtered(p.opts, defs), p.used))
            case Err(e) => Unmarshal(data, defs, previous, None) == Err(e)
    decreases |data|
  {
    hide ParseOne, Kept;
    if data != [] && data[0] != MARKER && ParseOne(data, previous).Ok? {
      var one := ParseOne(data, previous).value;
      UnmarshalIsParseAndFilter(data[one.used..], defs, one.opt.id);
      match Parse(data[one.used..], one.opt.id)
      case Ok(more) =>
        assert ([one.opt] + more.opts)[1..] == more.opts;
      case Err(_) =>
    }
  }

  /** A limited list either reports that it is too small or behaves like an unlimited one, and
      it is never too small for as many options as there are bytes. */
  lemma {:induction false} CapacityOnlyRefuses(data: seq<byte>, defs: Defs, previous: nat, room: nat)
    ensures Unmarshal(data, defs, previous, Some(room)) == Err(OptionsTooSmall)
         || Unmarshal(data, defs, previous, Some(room)) == Unmarshal(data, defs, previous, None)
    ensures |data| <= room ==> Unmarshal(data, defs, previous, Some(room)) != Err(OptionsTooSmall)
    decreases |data|
  {
    hide ParseOne, Kept;
    if data != [] && data[0] != MARKER && ParseOne(data, previous).Ok? {
      var one := ParseOne(data, previous).value;
      if room > 0 {
        CapacityOnlyRefuses(data[one.used..], defs, one.opt.id,
                            if Kept(one.opt, defs) then room - 1 else room);
      }
    }
  }

  /** The retry of a pooled message: a list that is too small is replaced by one twice its size.
      A new message starts with room for 16 options. */
  method UnmarshalRetrying(data: seq<byte>, defs: Defs, capacity: nat) returns (r: Result<Parsed, OptionError>)
    requires 0 < capacity
    ensures r == Unmarshal(data, defs, 0, None)
  {
    var room := capacity;
    r := Unmarshal(data, defs, 0, Some(room));
    CapacityOnlyRefuses(data, defs, 0, room);
    while r == Err(OptionsTooSmall)
      invariant 0 < room
      invariant r == Unmarshal(data, defs, 0, Some(room))
      invariant r == Err(OptionsTooSmall) || r == Unmarshal(data, defs, 0, None)
      invariant |data| <= room ==> r != Err(OptionsTooSmall)
      decreases |data| - room
    {
      room := 2 * room;
      r := Unmarshal(data, defs, 0, Some(room));
      CapacityOnlyRefuses(data, defs, 0, room);
    }
  }

  /** Kept options stay in order, so everything accepted is a sorted list. */
  lemma {:induction false} FilterKeepsOrder(opts: seq<Opt>, defs: Defs, previous: int)
    requires CarriableList(opts, previous)
    ensures Sorted(Filtered(opts, defs))
    ensures forall i :: 0 <= i < |Filtered(opts, defs)| ==>
              previous <= Filtered(opts, defs)[i].id <= 0xffff && Kept(Filtered(opts, defs)[i], defs)
              && |Filtered(opts, defs)[i].value| <= MAX_EXTENDED
    decreases |opts|
  {
    if opts != [] {
      FilterKeepsOrder(opts[1..], defs, opts[0].id);
    }
  }

  /** Nothing is dropped exactly from lists in which every option is one to keep. */
  lemma {:induction false} FilterIsIdentity(opts: seq<Opt>, defs: Defs)
    ensures Filtered(opts, defs) == opts <==> forall i :: 0 <= i < |opts| ==> Kept(opts[i], defs)
    decreases |opts|
  {
    hide Kept;
    if opts != [] {
      FilterIsIdentity(opts[1..], defs);
      assert opts == [opts[0]] + opts[1..];
      assert forall i :: 0 <= i < |opts[1..]| ==> opts[1..][i] == opts[i + 1];
      if !Kept(opts[0], defs) {
        assert |Filtered(opts, defs)| < |opts|;
      }
    }
  }
}
