/** Wire forms of the Q-Block engine: the Q-Block option value (section 4.2 of RFC 9177) and
    the missing-block report, a CBOR sequence of unsigned integers (section 5 of RFC 9177,
    section 3.1 of RFC 8949). */
module QCodec {
  import opened Base
  import opened Transfer

  datatype CodecError = InvalidSzxBits | NumberExceedsLimit | ValueTooLarge | InvalidReport

  datatype BlockRef = BlockRef(szx: nat, num: int, more: bool)

  // ---------------------------------------------------------------- option value

  /** NUM in the upper 20 bits, then the more bit, then SZX. */
  function EncodeOption(r: BlockRef): (v: Result<int, CodecError>)
  {
    if r.szx > MAX_SZX then Err(InvalidSzxBits)
    else if r.num < 0 || r.num > MAX_NUM then Err(NumberExceedsLimit)
    else Ok(r.num * 16 + (if r.more then 8 else 0) + r.szx)
  }

  function DecodeOption(v: nat): (r: Result<BlockRef, CodecError>)
  {
    if v > 0xffffff then Err(ValueTooLarge)
    else if v % 8 > MAX_SZX then Err(InvalidSzxBits)
    else Ok(BlockRef(v % 8, v / 16, v / 8 % 2 == 1))
  }

  /** Every 20-bit NUM with a block size of at most 1024 bytes has a value, which decodes back. */
  lemma OptionDecodesBack(r: BlockRef)
    ensures EncodeOption(r).Ok? <==> r.szx <= MAX_SZX && 0 <= r.num <= MAX_NUM
    ensures EncodeOption(r).Ok? ==> 0 <= EncodeOption(r).value && DecodeOption(EncodeOption(r).value) == Ok(r)
  {
    if EncodeOption(r).Ok? {
      var m := if r.more then 1 else 0;
      var v := EncodeOption(r).value;
      DivUnique(v, 16, r.num);
      DivUnique(v, 8, 2 * r.num + m);
    }
  }

  /** Only BERT and oversized values are refused, and no two values mean the same. */
  lemma OptionEncodesBack(v: nat)
    ensures DecodeOption(v).Ok? <==> v <= 0xffffff && v % 8 != 7
    ensures DecodeOption(v).Ok? ==> EncodeOption(DecodeOption(v).value) == Ok(v)
  {
    assert v == 8 * (v / 8) + v % 8;
    assert v / 8 == 2 * (v / 16) + v / 8 % 2;
  }

  // ---------------------------------------------------------------- one CBOR integer

  function EncodeInt(n: int): (bytes: seq<byte>)
    requires 0 <= n <= MAX_NUM
  {
    if n < 24 then [n]
    else if n <= 0xff then [0x18, n]
    else if n <= 0xffff then [0x19, n / 256, n % 256]
    else [0x1a, n / 0x1000000, n / 0x10000 % 256, n / 256 % 256, n % 256]
  }

  /** Big-endian value of a byte string. */
  function BigEndian(bytes: seq<byte>): (n: nat)
  {
    if bytes == [] then 0 else BigEndian(bytes[..|bytes| - 1]) * 256 + bytes[|bytes| - 1]
  }

  datatype Item = Item(number: nat, rest: seq<byte>)

  /** One unsigned integer off the front; other major types and reserved widths are errors. */
  function DecodeInt(data: seq<byte>): (r: Result<Item, CodecError>)
    requires data != []
    ensures r.Ok? ==> |r.value.rest| < |data|
  {
    var header, tail := data[0], data[1..];
    if header / 32 != 0 then Err(InvalidReport)
    else
      var info := header % 32;
      if info < 24 then Ok(Item(info, tail))
      else if info > 27 then Err(InvalidReport)
      else
        var width := [1, 2, 4, 8][info - 24];
        if |tail| < width then Err(InvalidReport)
        else Ok(Item(BigEndian(tail[..width]), tail[width..]))
  }

  lemma BigEndianSmall(a: byte, b: byte, c: byte, d: byte)
    ensures BigEndian([a]) == a
    ensures BigEndian([a, b]) == a * 256 + b
    ensures BigEndian([a, b, c, d]) == ((a * 256 + b) * 256 + c) * 256 + d
  {
    assert [a, b, c, d][..3] == [a, b, c];
    assert [a, b, c][..2] == [a, b];
    assert [a, b][..1] == [a];
    assert [a][..0] == [];
  }

  /** Each encoded integer is self-delimiting: what follows it does not matter. */
  lemma IntRoundTrips(n: int, rest: seq<byte>)
    requires 0 <= n <= MAX_NUM
    ensures DecodeInt(EncodeInt(n) + rest) == Ok(Item(n, rest))
  {
    hide BigEndian;
    var code := EncodeInt(n);
    var tail := code[1..];
    Shifted(code, rest);
    if 24 <= n <= 0xff {
      BigEndianSmall(n, 0, 0, 0);
    } else if 0xff < n <= 0xffff {
      BigEndianSmall(n / 256, n % 256, 0, 0);
    } else if 0xffff < n {
      BigEndianSmall(n / 0x1000000, n / 0x10000 % 256, n / 256 % 256, n % 256);
    }
  }

  lemma Shifted(code: seq<byte>, rest: seq<byte>)
    requires code != []
    ensures (code + rest)[1..][..|code| - 1] == code[1..] && (code + rest)[1..][|code| - 1..] == rest
  {
  }

  // ---------------------------------------------------------------- reports

  /** A list the encoder accepts: non-empty, strictly increasing 20-bit numbers. */
  predicate IsReport(nums: seq<int>) {
    nums != [] && Increasing(nums) && forall i :: 0 <= i < |nums| ==> 0 <= nums[i] <= MAX_NUM
  }

  function EncodeEach(nums: seq<int>): (items: seq<seq<byte>>)
    requires forall i :: 0 <= i < |nums| ==> 0 <= nums[i] <= MAX_NUM
  {
    seq(|nums|, i requires 0 <= i < |nums| => EncodeInt(nums[i]))
  }

  function EncodeAll(nums: seq<int>): (bytes: seq<byte>)
    requires forall i :: 0 <= i < |nums| ==> 0 <= nums[i] <= MAX_NUM
  {
    Flatten(EncodeEach(nums))
  }

  /** Appends the report for `blocks` (unsigned 32-bit values) to `dst`, or leaves it alone. */
  method EncodeMissingBlocks(dst: seq<byte>, blocks: seq<int>) returns (out: seq<byte>, err: Option<CodecError>)
    requires forall i :: 0 <= i < |blocks| ==> 0 <= blocks[i]
    ensures err.None? <==> IsReport(blocks)
    ensures out == if err.None? then dst + EncodeAll(blocks) else dst
  {
    hide Increasing, EncodeAll;
    if |blocks| == 0 {
      return dst, Some(InvalidReport);
    }
    var previous := 0;
    AscendNone(blocks);
    for i := 0 to |blocks|
      invariant Increasing(blocks[..i])
      invariant forall k :: 0 <= k < i ==> blocks[k] <= MAX_NUM
      invariant i > 0 ==> previous == blocks[i - 1]
    {
      var block := blocks[i];
      AscendNext(blocks, i);
      if block > MAX_NUM || (i > 0 && block <= previous) {
        return dst, Some(InvalidReport);
      }
      previous := block;
    }
    assert blocks[..|blocks|] == blocks;
    out := AppendAll(dst, blocks);
    return out, None;
  }

  /** The appending half. */
  method AppendAll(dst: seq<byte>, blocks: seq<int>) returns (out: seq<byte>)
    requires forall i :: 0 <= i < |blocks| ==> 0 <= blocks[i] <= MAX_NUM
    ensures out == dst + EncodeAll(blocks)
  {
    hide EncodeAll, EncodeInt;
    out := dst;
    EncodeAllNone();
    for i := 0 to |blocks|
      invariant out == dst + EncodeAll(blocks[..i])
    {
      EncodeAllNext(blocks, i);
      assert dst + (EncodeAll(blocks[..i]) + EncodeInt(blocks[i])) == dst + EncodeAll(blocks[..i]) + EncodeInt(blocks[i]);
      out := out + EncodeInt(blocks[i]);
    }
    assert blocks[..|blocks|] == blocks;
  }

  lemma EncodeAllNone()
    ensures EncodeAll([]) == []
  {
  }

  lemma EncodeAllNext(nums: seq<int>, i: nat)
    requires i < |nums| && forall k :: 0 <= k < |nums| ==> 0 <= nums[k] <= MAX_NUM
    ensures EncodeAll(nums[..i + 1]) == EncodeAll(nums[..i]) + EncodeInt(nums[i])
  {
    hide EncodeInt;
    assert EncodeEach(nums[..i + 1])[..i] == EncodeEach(nums[..i]);
  }

  lemma AscendNone(nums: seq<int>)
    ensures Increasing(nums[..0])
  {
  }

  /** One more number goes on ascending if and only if it is above the last. */
  lemma AscendNext(nums: seq<int>, i: nat)
    requires i < |nums| && Increasing(nums[..i])
    ensures Increasing(nums[..i + 1]) <==> i == 0 || nums[i - 1] < nums[i]
    ensures Increasing(nums) ==> Increasing(nums[..i + 1])
  {
    assert forall k :: 0 <= k < i ==> nums[..i + 1][k] == nums[..i][k] == nums[k];
    assert nums[..i + 1][i] == nums[i];
  }

  /** What walking a report emits: duplicates once, an error on anything descending,
      out of range or not an unsigned integer. */
  function Walk(data: seq<byte>, previous: Option<int>): (r: Result<seq<int>, CodecError>)
    decreases |data|
  {
    if data == [] then Ok([])
    else
      match DecodeInt(data)
      case Err(e) => Err(e)
      case Ok(Item(number, rest)) =>
        if number > MAX_NUM then Err(InvalidReport)
        else if previous.Some? && number < previous.value then Err(InvalidReport)
        else
          match Walk(rest, Some(number))
          case Err(e) => Err(e)
          case Ok(nums) => Ok((if previous.Some? && number == previous.value then [] else [number]) + nums)
  }

  /** The walk as the source runs it; `emitted` collects what the callback receives. */
  method WalkMissingBlocks(data: seq<byte>) returns (emitted: seq<int>, err: Option<CodecError>)
    ensures err.None? <==> Walk(data, None).Ok?
    ensures err.None? ==> Walk(data, None) == Ok(emitted)
    ensures err.Some? ==> Walk(data, None) == Err(err.value)
  {
    var rest, previous, first := data, 0, true;
    emitted := [];
    assert Walk(data, None).Ok? ==> [] + Walk(data, None).value == Walk(data, None).value;
    while |rest| > 0
      invariant var p := if first then None else Some(previous);
                match Walk(rest, p)
                case Ok(nums) => Walk(data, None) == Ok(emitted + nums)
                case Err(e) => Walk(data, None) == Err(e)
      decreases |rest|
    {
      match DecodeInt(rest) {
        case Err(e) => return emitted, Some(e);
        case Ok(Item(number, tail)) =>
          if number > MAX_NUM {
            return emitted, Some(InvalidReport);
          }
          if !first && number < previous {
            return emitted, Some(InvalidReport);
          }
          ghost var nums := Walk(tail, Some(number));
          if first || number != previous {
            assert nums.Ok? ==> emitted + ([number] + nums.value) == emitted + [number] + nums.value;
            emitted := emitted + [number];
          } else {
            assert nums.Ok? ==> [] + nums.value == nums.value;
          }
          first, previous, rest := false, number, tail;
      }
    }
    assert emitted + [] == emitted;
    return emitted, None;
  }

  /** Appends the numbers of a report to `dst`, or leaves it alone. */
  method DecodeMissingBlocks(dst: seq<int>, data: seq<byte>) returns (out: seq<int>, err: Option<CodecError>)
    ensures err.None? <==> data != [] && Walk(data, None).Ok?
    ensures out == if err.None? then dst + Walk(data, None).value else dst
  {
    if |data| == 0 {
      return dst, Some(InvalidReport);
    }
    var emitted;
    emitted, err := WalkMissingBlocks(data);
    if err.Some? {
      return dst, err;
    }
    return dst + emitted, None;
  }

  lemma EncodeAllFront(nums: seq<int>)
    requires nums != [] && forall i :: 0 <= i < |nums| ==> 0 <= nums[i] <= MAX_NUM
    ensures EncodeAll(nums) == EncodeInt(nums[0]) + EncodeAll(nums[1..])
  {
    FlattenFront(EncodeEach(nums));
    assert EncodeEach(nums)[1..] == EncodeEach(nums[1..]);
  }

  lemma SomeBytes(n: int)
    requires 0 <= n <= MAX_NUM
    ensures EncodeInt(n) != []
  {
  }

  /** Walking an encoded list gives the list back, given where the walk has got to. */
  lemma {:induction false} WalkEncoded(nums: seq<int>, previous: Option<int>)
    requires Increasing(nums) && forall i :: 0 <= i < |nums| ==> 0 <= nums[i] <= MAX_NUM
    requires previous.Some? && nums != [] ==> previous.value < nums[0]
    ensures Walk(EncodeAll(nums), previous) == Ok(nums)
    decreases |nums|
  {
    hide EncodeAll, EncodeInt, DecodeInt;
    if nums == [] {
      EncodeAllNone();
    } else {
      EncodeAllFront(nums);
      SomeBytes(nums[0]);
      IntRoundTrips(nums[0], EncodeAll(nums[1..]));
      assert EncodeAll(nums) != [];
      WalkEncoded(nums[1..], Some(nums[0]));
      assert [nums[0]] + nums[1..] == nums;
    }
  }

  /** The report codec is the identity on every list the encoder accepts. */
  lemma ReportRoundTrips(nums: seq<int>)
    requires IsReport(nums)
    ensures EncodeAll(nums) != [] && Walk(EncodeAll(nums), None) == Ok(nums)
  {
    EncodeAllFront(nums);
    WalkEncoded(nums, None);
  }

  /** Whatever bytes the decoder accepts, it yields strictly increasing 20-bit numbers above
      the one walked before. */
  lemma {:induction false} WalkedAscends(data: seq<byte>, previous: Option<int>)
    requires Walk(data, previous).Ok?
    requires previous.Some? ==> 0 <= previous.value
    ensures var nums := Walk(data, previous).value;
            && Increasing(nums)
            && (forall i :: 0 <= i < |nums| ==> 0 <= nums[i] <= MAX_NUM)
            && (previous.Some? ==> forall i :: 0 <= i < |nums| ==> previous.value < nums[i])
            && (data != [] && previous.None? ==> nums != [])
    decreases |data|
  {
    if data != [] {
      var item := DecodeInt(data).value;
      WalkedAscends(item.rest, Some(item.number));
    }
  }

  /** Every accepted report is equivalent to one the encoder would produce: decoding it and
      encoding the result is a normal form with the same meaning. */
  lemma AcceptedReportsNormalize(data: seq<byte>)
    requires data != [] && Walk(data, None).Ok?
    ensures IsReport(Walk(data, None).value)
    ensures Walk(EncodeAll(Walk(data, None).value), None) == Walk(data, None)
  {
    WalkedAscends(data, None);
    ReportRoundTrips(Walk(data, None).value);
  }
}
