/** Text helpers behind the log rows and hex strings: Kotlin's
    `joinToString`, its inverse (splitting on a separator character) and
    `Long.toString` / `Int.toString` in base 10. */
module Text {

  /** `parts.joinToString(sep)`: the parts in order, `sep` between each
      neighbouring pair and nowhere else. */
  function Join(parts: seq<string>, sep: string): (s: string)
    ensures |parts| == 0 ==> s == ""
    ensures |parts| == 1 ==> s == parts[0]
    ensures |parts| >= 2 ==> parts[0] + sep <= s
  {
    if |parts| == 0 then ""
    else if |parts| == 1 then parts[0]
    else parts[0] + sep + Join(parts[1..], sep)
  }

  /** The fields of `s` between occurrences of `sep`; always at least one. */
  function Split(s: string, sep: char): (fields: seq<string>)
    ensures |fields| >= 1
  {
    if |s| == 0 then [""]
    else if s[0] == sep then [""] + Split(s[1..], sep)
    else
      var rest := Split(s[1..], sep);
      [[s[0]] + rest[0]] + rest[1..]
  }

  /** A field is a run of characters without the separator. */
  predicate IsField(field: string, sep: char)
  {
    sep !in field
  }

  /** A string without the separator is a single field. */
  lemma {:induction false} SplitField(field: string, sep: char)
    requires IsField(field, sep)
    ensures Split(field, sep) == [field]
  {
    if |field| > 0 {
      SplitField(field[1..], sep);
      assert [field[0]] + field[1..] == field;
    }
  }

  /** Splitting at the first separator peels off the first field. */
  lemma {:induction false} SplitFirst(field: string, sep: char, rest: string)
    requires IsField(field, sep)
    ensures Split(field + [sep] + rest, sep) == [field] + Split(rest, sep)
  {
    if |field| == 0 {
      assert field + [sep] + rest == [sep] + rest;
      assert ([sep] + rest)[1..] == rest;
    } else {
      SplitFirst(field[1..], sep, rest);
      assert (field + [sep] + rest)[1..] == field[1..] + [sep] + rest;
      assert [field[0]] + field[1..] == field;
    }
  }

  /** Joining fields that do not contain the separator can be undone by
      splitting: the row's fields come back, in order and unaltered. */
  lemma {:induction false} SplitJoin(parts: seq<string>, sep: char)
    requires |parts| >= 1
    requires forall i :: 0 <= i < |parts| ==> IsField(parts[i], sep)
    ensures Split(Join(parts, [sep]), sep) == parts
  {
    if |parts| == 1 {
      SplitField(parts[0], sep);
    } else {
      SplitJoin(parts[1..], sep);
      SplitFirst(parts[0], sep, Join(parts[1..], [sep]));
      assert [parts[0]] + parts[1..] == parts;
    }
  }

  /** The number of characters a join produces. */
  lemma {:induction false} JoinLength(parts: seq<string>, sep: string, width: nat)
    requires |parts| >= 1
    requires forall i :: 0 <= i < |parts| ==> |parts[i]| == width
    ensures |Join(parts, sep)| == |parts| * width + (|parts| - 1) * |sep|
  {
    if |parts| > 1 {
      JoinLength(parts[1..], sep, width);
    }
  }

  /** The digit character of a value below ten. */
  function DigitChar(d: nat): char
    requires d < 10
  {
    "0123456789"[d]
  }

  predicate IsDigits(s: string)
  {
    forall i :: 0 <= i < |s| ==> '0' <= s[i] <= '9'
  }

  /** `Long.toString` of a non-negative value: its base-10 digits, most
      significant first, without leading zeros. */
  function Decimal(n: nat): (s: string)
    ensures |s| >= 1 && IsDigits(s)
    ensures (n == 0) == (s == "0") && (n > 0 ==> s[0] != '0')
  {
    if n < 10 then [DigitChar(n)] else Decimal(n / 10) + [DigitChar(n % 10)]
  }

  /** The value of a string of base-10 digits. */
  function DigitsValue(s: string): nat
    requires IsDigits(s)
  {
    if s == [] then 0
    else 10 * DigitsValue(s[..|s| - 1]) + (s[|s| - 1] as int - '0' as int)
  }

  /** Reading the decimal text back gives the number that was written. */
  lemma {:induction false} DecimalValue(n: nat)
    ensures DigitsValue(Decimal(n)) == n
  {
    var s := Decimal(n);
    if n >= 10 {
      DecimalValue(n / 10);
      assert s[..|s| - 1] == Decimal(n / 10);
    }
  }

  /** `Int.toString`: a leading '-' for negative values. */
  function SignedDecimal(x: int): (s: string)
    ensures |s| >= 1 && ',' !in s
    ensures (x < 0) == (s[0] == '-')
    ensures x >= 0 ==> IsDigits(s) && DigitsValue(s) == x
    ensures x < 0 ==> IsDigits(s[1..]) && DigitsValue(s[1..]) == -x
  {
    if x < 0 then
      DecimalValue(-x);
      assert ("-" + Decimal(-x))[1..] == Decimal(-x);
      "-" + Decimal(-x)
    else
      DecimalValue(x);
      Decimal(x)
  }
}
