/** The two hex renderings of a characteristic value: `toHexString`
    (`"%02x"` per byte, nothing between) and the formatting inside
    `broadcastUpdate` (`"%02X"` per byte, single spaces between). `%x` on a
    Kotlin `Byte` prints its unsigned bit pattern, so every byte gives
    exactly two digits. */
module HexFormat {
  import opened Wrappers
  import opened FrameDecoder
  import opened Text

  /** The hex digit of a nibble, lower or upper case. */
  function HexDigit(d: nat, upper: bool): (c: char)
    requires d < 16
  {
    if d < 10 then ('0' as int + d) as char
    else ((if upper then 'A' else 'a') as int + d - 10) as char
  }

  /** The nibble a hex digit of either case stands for. */
  function HexValue(c: char): Option<nat>
  {
    if '0' <= c <= '9' then Some(c as int - '0' as int)
    else if 'a' <= c <= 'f' then Some(c as int - 'a' as int + 10)
    else if 'A' <= c <= 'F' then Some(c as int - 'A' as int + 10)
    else None
  }

  /** `"%02x"` / `"%02X"` of one byte: high nibble first. */
  function HexPair(b: byte, upper: bool): (p: string)
    ensures |p| == 2
    ensures forall k :: 0 <= k < 2 ==> p[k] in (if upper then "0123456789ABCDEF" else "0123456789abcdef")
    ensures ParsePair(p) == Some(b)
  {
    var p := [HexDigit(b / 16, upper), HexDigit(b % 16, upper)];
    assert HexValue(p[0]) == Some(b / 16);
    assert HexValue(p[1]) == Some(b % 16);
    p
  }

  /** The byte a two-digit hex field stands for. */
  function ParsePair(p: string): Option<byte>
  {
    if |p| != 2 then None
    else match (HexValue(p[0]), HexValue(p[1]))
      case (Some(hi), Some(lo)) => if hi < 16 && lo < 16 then Some(16 * hi + lo) else None
      case _ => None
  }

  /** A byte printed in either case parses back to itself. */
  lemma ParseHexPair(b: byte, upper: bool)
    ensures ParsePair(HexPair(b, upper)) == Some(b)
  {
    var p := HexPair(b, upper);
    assert HexValue(p[0]) == Some(b / 16);
    assert HexValue(p[1]) == Some(b % 16);
  }

  /** `ByteArray.toHexString()`: two lower-case hex digits per byte. */
  function ToHexString(data: seq<byte>): (s: string)
    ensures |s| == 2 * |data|
    ensures forall i :: 0 <= i < |s| ==> s[i] in "0123456789abcdef"
  {
    if data == [] then "" else HexPair(data[0], false) + ToHexString(data[1..])
  }

  /** Reads a run of two-digit hex fields with nothing between them. */
  function ParseHex(s: string): Option<seq<byte>>
  {
    if |s| == 0 then Some([])
    else if |s| < 2 then None
    else match (ParsePair(s[..2]), ParseHex(s[2..]))
      case (Some(b), Some(rest)) => Some([b] + rest)
      case _ => None
  }

  /** `toHexString` loses nothing: its text reads back to the same bytes. */
  lemma {:induction false} ParseToHexString(data: seq<byte>)
    ensures ParseHex(ToHexString(data)) == Some(data)
  {
    if data != [] {
      var s := ToHexString(data);
      assert s[..2] == HexPair(data[0], false);
      assert s[2..] == ToHexString(data[1..]);
      ParseHexPair(data[0], false);
      ParseToHexString(data[1..]);
      assert [data[0]] + data[1..] == data;
    }
  }

  /** The upper-case pairs of the bytes, in order. */
  function UpperPairs(data: seq<byte>): (pairs: seq<string>)
    ensures |pairs| == |data|
    ensures forall i :: 0 <= i < |pairs| ==>
      && |pairs[i]| == 2
      && (forall k :: 0 <= k < 2 ==> pairs[i][k] in "0123456789ABCDEF")
      && ParsePair(pairs[i]) == Some(data[i])
  {
    seq(|data|, i requires 0 <= i < |data| => HexPair(data[i], true))
  }

  /** The hex text `broadcastUpdate` attaches: `"%02X"` pairs joined by
      single spaces. */
  function HexDump(data: seq<byte>): (s: string)
    ensures |data| == 0 ==> s == ""
    ensures |data| > 0 ==> |s| == 3 * |data| - 1
  {
    if |data| == 0 then ""
    else
      JoinLength(UpperPairs(data), " ", 2);
      Join(UpperPairs(data), " ")
  }

  /** The hex part of the broadcast extra for a characteristic value: only a
      non-null, non-empty value gets one, and it has three characters per
      byte less the trailing space. */
  function BroadcastHex(value: Option<seq<byte>>): (hex: Option<string>)
    ensures hex.Some? <==> value.Some? && |value.value| > 0
    ensures hex.Some? ==> |hex.value| == 3 * |value.value| - 1
    ensures hex.Some? ==> hex.value == HexDump(value.value) && ParseHexDump(hex.value) == Some(value.value)
  {
    match value
    case Some(data) =>
      if |data| > 0 then
        HexDumpRoundTrip(data);
        Some(HexDump(data))
      else None
    case None => None
  }

  /** Reads space-separated two-digit hex fields. */
  function ParseFields(fields: seq<string>): Option<seq<byte>>
  {
    if fields == [] then Some([])
    else match (ParsePair(fields[0]), ParseFields(fields[1..]))
      case (Some(b), Some(rest)) => Some([b] + rest)
      case _ => None
  }

  function ParseHexDump(s: string): Option<seq<byte>>
  {
    ParseFields(Split(s, ' '))
  }

  lemma {:induction false} ParseUpperPairs(data: seq<byte>)
    ensures ParseFields(UpperPairs(data)) == Some(data)
  {
    if data != [] {
      assert UpperPairs(data)[1..] == UpperPairs(data[1..]);
      ParseHexPair(data[0], true);
      ParseUpperPairs(data[1..]);
      assert [data[0]] + data[1..] == data;
    }
  }

  /** The broadcast hex text of a non-empty value reads back to the value. */
  lemma HexDumpRoundTrip(data: seq<byte>)
    requires |data| > 0
    ensures ParseHexDump(HexDump(data)) == Some(data)
  {
    var pairs := UpperPairs(data);
    forall i | 0 <= i < |pairs|
      ensures IsField(pairs[i], ' ')
    {
      assert pairs[i] == HexPair(data[i], true);
    }
    SplitJoin(pairs, ' ');
    ParseUpperPairs(data);
  }
}
