/** The telemetry frame decoder: `unpackFByteArray` and `decodeByteData`,
    which the three ring files carry as identical copies.

    A characteristic value is regrouped into 4-byte little-endian words. The
    source reinterprets each word as an IEEE 754 binary32 float; the
    reinterpretation changes no bit, so the model keeps the 32-bit word and
    leaves the float itself (and its text) to the row formatter. */
module FrameDecoder {
  import opened Wrappers

  /** One octet of a characteristic value (Kotlin's signed `Byte` read as its
      unsigned bit pattern). */
  type byte = b: int | 0 <= b < 0x100

  /** The bit pattern of one binary32 value. */
  type word32 = w: int | 0 <= w < 0x1_0000_0000

  /** `copyOfRange(i, i + 4)` throws when fewer than four bytes remain at
      offset `i`: the start of the incomplete group. */
  datatype DecodeError = IncompleteGroup(offset: nat)

  /** The word `ByteBuffer.order(LITTLE_ENDIAN).float` reads from a 4-byte
      group: `b0 | b1 << 8 | b2 << 16 | b3 << 24`. The four bytes occupy
      disjoint bit ranges, so the bitwise or equals this weighted sum. */
  function UnpackWord(group: seq<byte>): (w: word32)
    requires |group| == 4
    ensures w % 0x100 == group[0] && w / 0x100_0000 == group[3]
  {
    (group[0] as int) + 0x100 * (group[1] as int) + 0x1_0000 * (group[2] as int)
      + 0x100_0000 * (group[3] as int)
  }

  /** The 4-byte little-endian layout of a word: the inverse of UnpackWord. */
  function WordBytes(w: word32): (group: seq<byte>)
    ensures |group| == 4
  {
    [w % 0x100, (w / 0x100) % 0x100, (w / 0x1_0000) % 0x100, w / 0x100_0000]
  }

  lemma UnpackWordBytes(w: word32)
    ensures UnpackWord(WordBytes(w)) == w
  {
    var r0, q1 := w % 0x100, w / 0x100;
    var r1, q2 := q1 % 0x100, q1 / 0x100;
    var r2, q3 := q2 % 0x100, q2 / 0x100;
    assert w == (r0 + 0x100 * r1) + 0x1_0000 * q2;
    SplitAt(r0 + 0x100 * r1, q2, 0x1_0000);
    assert w == (r0 + 0x100 * r1 + 0x1_0000 * r2) + 0x100_0000 * q3;
    SplitAt(r0 + 0x100 * r1 + 0x1_0000 * r2, q3, 0x100_0000);
  }

  lemma WordBytesUnpack(group: seq<byte>)
    requires |group| == 4
    ensures WordBytes(UnpackWord(group)) == group
  {
    var g0, g1, g2, g3 := group[0] as int, group[1] as int, group[2] as int, group[3] as int;
    var w := UnpackWord(group);
    assert w == g0 + 0x100 * (g1 + 0x100 * g2 + 0x1_0000 * g3);
    SplitAt(g0, g1 + 0x100 * g2 + 0x1_0000 * g3, 0x100);
    SplitAt(g1, g2 + 0x100 * g3, 0x100);
    assert w == (g0 + 0x100 * g1) + 0x1_0000 * (g2 + 0x100 * g3);
    SplitAt(g0 + 0x100 * g1, g2 + 0x100 * g3, 0x1_0000);
    SplitAt(g2, g3, 0x100);
    assert w == (g0 + 0x100 * g1 + 0x1_0000 * g2) + 0x100_0000 * g3;
    SplitAt(g0 + 0x100 * g1 + 0x1_0000 * g2, g3, 0x100_0000);
  }

  /** Euclidean division of `low + m * high` by `m` when `low < m`. */
  lemma SplitAt(low: int, high: int, m: int)
    requires 0 <= low < m
    ensures (low + m * high) / m == high && (low + m * high) % m == low
  {
    var n := low + m * high;
    var q, r := n / m, n % m;
    assert m * q + r == m * high + low;
    assert m * (q - high) == low - r;
    if q > high {
      MulAtLeast(m, q - high);
    } else if q < high {
      MulAtLeast(m, high - q);
    }
  }

  lemma MulAtLeast(m: int, k: int)
    requires m > 0 && k >= 1
    ensures m * k >= m
  {
    if k > 1 {
      MulAtLeast(m, k - 1);
      assert m * k == m * (k - 1) + m;
    }
  }

  /** What `decodeByteData` computes: one word per 4-byte group, in order, or
      the exception raised at the first incomplete group. */
  function Decode(data: seq<byte>): (r: Result<seq<word32>, DecodeError>)
    ensures r.Success? ==> 4 * |r.value| == |data|
    ensures r.Failure? ==> r.error.offset % 4 == 0 && r.error.offset < |data| < r.error.offset + 4
    decreases |data|
  {
    if |data| == 0 then Success([])
    else if |data| < 4 then Failure(IncompleteGroup(0))
    else
      match Decode(data[4..])
      case Success(words) => Success([UnpackWord(data[..4])] + words)
      case Failure(IncompleteGroup(at)) => Failure(IncompleteGroup(at + 4))
  }

  /** The decoder succeeds exactly on whole groups; otherwise it fails at the
      start of the trailing partial group and yields no partial output. */
  lemma {:induction false} DecodeOutcome(data: seq<byte>)
    ensures Decode(data).Success? <==> |data| % 4 == 0
    ensures Decode(data).Failure? ==> Decode(data).error.offset == |data| - |data| % 4
    ensures Decode(data).Success? ==> |Decode(data).value| == |data| / 4
    decreases |data|
  {
    if |data| >= 4 {
      DecodeOutcome(data[4..]);
    }
  }

  /** Word k of the output is built from bytes 4k .. 4k+3 of the input. */
  lemma {:induction false} DecodeAt(data: seq<byte>, k: nat)
    requires |data| % 4 == 0 && k < |data| / 4
    ensures Decode(data).Success? && |Decode(data).value| == |data| / 4
    ensures Decode(data).value[k] == UnpackWord(data[4 * k .. 4 * k + 4])
    decreases |data|
  {
    DecodeOutcome(data);
    if k > 0 {
      DecodeAt(data[4..], k - 1);
      assert data[4..][4 * (k - 1) .. 4 * (k - 1) + 4] == data[4 * k .. 4 * k + 4];
    }
  }

  /** `decodeByteData`: the stepped loop over `byteData.indices step 4`,
      appending one word per group to a mutable list. */
  method DecodeByteData(data: seq<byte>) returns (r: Result<seq<word32>, DecodeError>)
    ensures r == Decode(data)
  {
    var words: seq<word32> := [];
    var i := 0;
    while i < |data|
      invariant 0 <= i <= |data| && i % 4 == 0
      invariant |words| == i / 4
      invariant forall k :: 0 <= k < |words| ==> words[k] == UnpackWord(data[4 * k .. 4 * k + 4])
    {
      if i + 4 > |data| {
        DecodeOutcome(data);
        assert |data| % 4 == |data| - i;
        return Failure(IncompleteGroup(i));
      }
      words := words + [UnpackWord(data[i .. i + 4])];
      i := i + 4;
    }
    assert i == |data|;
    DecodeOutcome(data);
    assert Decode(data).Success? && |Decode(data).value| == |words|;
    forall k | 0 <= k < |words|
      ensures words[k] == Decode(data).value[k]
    {
      DecodeAt(data, k);
    }
    assert words == Decode(data).value;
    r := Success(words);
  }

  /** The encoder the decoder inverts: each word laid out little-endian. */
  function Encode(words: seq<word32>): (data: seq<byte>)
    ensures |data| == 4 * |words|
  {
    if words == [] then [] else WordBytes(words[0]) + Encode(words[1..])
  }

  /** Decoding what was encoded gives the words back, in order. */
  lemma {:induction false} DecodeEncode(words: seq<word32>)
    ensures Decode(Encode(words)) == Success(words)
  {
    if words != [] {
      var data := Encode(words);
      assert data[..4] == WordBytes(words[0]);
      assert data[4..] == Encode(words[1..]);
      DecodeEncode(words[1..]);
      UnpackWordBytes(words[0]);
      assert Decode(data) == Success([UnpackWord(data[..4])] + words[1..]);
      assert [words[0]] + words[1..] == words;
    }
  }

  /** Encoding what was decoded gives the bytes back: no byte is dropped,
      reordered or altered. */
  lemma {:induction false} EncodeDecode(data: seq<byte>)
    requires |data| % 4 == 0
    ensures Decode(data).Success? && Encode(Decode(data).value) == data
    decreases |data|
  {
    DecodeOutcome(data);
    if |data| > 0 {
      EncodeDecode(data[4..]);
      WordBytesUnpack(data[..4]);
      assert Decode(data).value[1..] == Decode(data[4..]).value;
      assert data == data[..4] + data[4..];
    }
  }
}
