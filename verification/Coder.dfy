/** Option tables the decoders consult, and the message both transports carry. */
module Coder {
  import opened Base
  import opened Options
  import opened OptionCodec

  const MAX_TOKEN: int := 8

  datatype Message = Message(token: seq<byte>, code: int, opts: seq<Opt>, payload: seq<byte>)

  function Def(minLen: int, maxLen: int): OptionDef {
    OptionDef(minLen, maxLen, true)
  }

  function CoapDefs(): Defs {
    map[1 := Def(0, 8), 3 := Def(1, 255), 4 := Def(1, 8), 5 := Def(0, 0), 6 := Def(0, 3), 7 := Def(0, 2),
        8 := Def(0, 255), 11 := Def(0, 255), 12 := Def(0, 2), 14 := Def(0, 4), 15 := Def(0, 255),
        17 := Def(0, 2), 19 := Def(0, 3), 20 := Def(0, 255), 23 := Def(0, 3), 27 := Def(0, 3),
        28 := Def(0, 4), 31 := Def(0, 3), 35 := Def(1, 1034), 39 := Def(1, 255), 60 := Def(0, 4),
        252 := Def(1, 40), 258 := Def(0, 1), 292 := Def(0, 8)]
  }

  /** Signalling messages on TCP have option tables of their own. */
  function TcpDefs(code: int): Defs {
    if code == 225 then map[2 := Def(0, 4), 4 := Def(0, 0)]
    else if code == 226 || code == 227 then map[2 := Def(0, 0)]
    else if code == 228 then map[2 := Def(1, 255), 4 := Def(0, 3)]
    else if code == 229 then map[2 := Def(0, 2)]
    else CoapDefs()
  }

  /** Options and payload, as both transports lay them out. */
  function Body(m: Message): (bytes: seq<byte>) {
    EncodeList(m.opts, 0) + Tail(m.payload)
  }

  function BodyOf(data: seq<byte>, defs: Defs): (r: Result<(seq<Opt>, seq<byte>), OptionError>)
  {
    match Unmarshal(data, defs, 0, None)
    case Err(e) => Err(e)
    case Ok(p) =>
      if p.used <= |data| then Ok((p.opts, data[p.used..])) else Ok((p.opts, []))
  }

  /** The body comes back minus exactly the options the receiver drops. */
  lemma BodyRoundTrips(m: Message, defs: Defs)
    requires CarriableList(m.opts, 0)
    ensures BodyOf(Body(m), defs) == Ok((Filtered(m.opts, defs), m.payload))
  {
    hide Unmarshal, Parse, EncodeList, CarriableList, Filtered, CoapDefs;
    ListRoundTrips(m.opts, 0, m.payload);
    UnmarshalIsParseAndFilter(Body(m), defs, 0);
    var used := |EncodeList(m.opts, 0)| + if m.payload == [] then 0 else 1;
    assert Body(m)[used..] == m.payload;
  }

  /** Whatever body is accepted, its options are sorted and kept ones, and the bytes are an
      encoding of some carriable list that filters to them, followed by the payload. */
  lemma BodyIsSound(data: seq<byte>, defs: Defs)
    requires BodyOf(data, defs).Ok?
    ensures var (opts, payload) := BodyOf(data, defs).value;
            && Sorted(opts) && CarriableList(opts, 0) && Filtered(opts, defs) == opts
            && (forall i :: 0 <= i < |opts| ==> Kept(opts[i], defs))
            && exists all :: CarriableList(all, 0) && Filtered(all, defs) == opts
                             && data == EncodeList(all, 0) + Tail(payload)
  {
    hide Unmarshal, Parse, EncodeList, CarriableList, Filtered, CoapDefs, Tail, Kept;
    UnmarshalIsParseAndFilter(data, defs, 0);
    var p := Parse(data, 0).value;
    ListIsCanonical(data, 0);
    FilterKeepsOrder(p.opts, defs, 0);
    SortedIsCarriable(Filtered(p.opts, defs), 0);
    FilterIsIdentity(Filtered(p.opts, defs), defs);
    assert CarriableList(p.opts, 0);
  }
}
