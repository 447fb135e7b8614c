/** The text rows the ring files write to their encrypted logs. Decoded
    words are rendered by a caller-supplied `fmt`, standing for
    `Float.toString(Float.fromBits(w))`; the model assumes only that such a
    rendering contains no comma, which holds of every text Kotlin prints for
    a float (digits, '.', '-', 'E', "NaN", "Infinity"). */
module LogRows {
  import opened FrameDecoder
  import opened Text

  /** The decoded values as `joinToString` sees them: one text per word. */
  function Render(words: seq<word32>, fmt: word32 -> string): (texts: seq<string>)
    ensures |texts| == |words|
    ensures forall i :: 0 <= i < |words| ==> texts[i] == fmt(words[i])
  {
    seq(|words|, i requires 0 <= i < |words| => fmt(words[i]))
  }

  /** No rendering of a word contains the field separator. */
  predicate CommaFree(fmt: word32 -> string)
  {
    forall w: word32 :: IsField(fmt(w), ',')
  }

  /** The row `onCharacteristicChanged` writes in OmniringService and
      OmniringListener: receive time in milliseconds, a comma, then the
      decoded values joined by commas. */
  function StampedRow(millis: nat, words: seq<word32>, fmt: word32 -> string): (row: string)
    ensures Decimal(millis) + "," <= row
    ensures |words| == 0 ==> row == Decimal(millis) + ","
  {
    Decimal(millis) + "," + Join(Render(words, fmt), ",")
  }

  /** The row written by OmniRingGattListener: the decoded values joined by
      commas and a line break, without a timestamp. */
  function PlainRow(words: seq<word32>, fmt: word32 -> string): (row: string)
    ensures |row| >= 1 && row[|row| - 1] == '\n'
    ensures |words| == 0 ==> row == "\n"
  {
    Join(Render(words, fmt), ",") + "\n"
  }

  /** The advertisement row: receive time, hashed MAC and RSSI. */
  function ScanRow(millis: nat, hashedMac: string, rssi: int): (row: string)
    ensures Decimal(millis) + "," <= row
  {
    Decimal(millis) + "," + hashedMac + "," + SignedDecimal(rssi)
  }

  /** The fields of a value list: one per word, or a single empty field
      when the payload decoded to nothing. */
  lemma ValueFields(words: seq<word32>, fmt: word32 -> string)
    requires CommaFree(fmt)
    ensures Split(Join(Render(words, fmt), ","), ',') ==
      if words == [] then [""] else Render(words, fmt)
  {
    var texts := Render(words, fmt);
    if words != [] {
      forall i | 0 <= i < |texts|
        ensures IsField(texts[i], ',')
      {
        assert texts[i] == fmt(words[i]);
      }
      SplitJoin(texts, ',');
    }
  }

  lemma DecimalIsField(n: nat)
    ensures IsField(Decimal(n), ',')
  {
  }

  /** A stamped row splits back into the timestamp followed by exactly one
      field per decoded value, in order. */
  lemma StampedRowFields(millis: nat, words: seq<word32>, fmt: word32 -> string)
    requires CommaFree(fmt)
    ensures Split(StampedRow(millis, words, fmt), ',') ==
      [Decimal(millis)] + (if words == [] then [""] else Render(words, fmt))
    ensures DigitsValue(Split(StampedRow(millis, words, fmt), ',')[0]) == millis
  {
    DecimalIsField(millis);
    SplitFirst(Decimal(millis), ',', Join(Render(words, fmt), ","));
    ValueFields(words, fmt);
    DecimalValue(millis);
  }

  /** A plain row is one line whose fields are the decoded values alone. */
  lemma PlainRowFields(words: seq<word32>, fmt: word32 -> string)
    requires CommaFree(fmt)
    ensures var row := PlainRow(words, fmt);
      |row| >= 1 && row[|row| - 1] == '\n' &&
      Split(row[..|row| - 1], ',') == if words == [] then [""] else Render(words, fmt)
  {
    var row := PlainRow(words, fmt);
    assert row[..|row| - 1] == Join(Render(words, fmt), ",");
    ValueFields(words, fmt);
  }

  /** An advertisement row splits back into its three fields. */
  lemma ScanRowFields(millis: nat, hashedMac: string, rssi: int)
    requires IsField(hashedMac, ',')
    ensures Split(ScanRow(millis, hashedMac, rssi), ',') ==
      [Decimal(millis), hashedMac, SignedDecimal(rssi)]
  {
    var stamp, rssiText := Decimal(millis), SignedDecimal(rssi);
    var tail := hashedMac + [','] + rssiText;
    assert ScanRow(millis, hashedMac, rssi) == stamp + [','] + tail;
    DecimalIsField(millis);
    SplitFirst(stamp, ',', tail);
    SplitFirst(hashedMac, ',', rssiText);
    SplitField(rssiText, ',');
  }
}
