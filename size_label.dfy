/** The size label codec of the poster widget: a size `{width, height}` is shown
    and keyed by the label "<width>x<height>", and a label is split back into its
    parts at every 'x'. Widths and heights are natural numbers here. */
module SizeLabel {

  /** A poster size: width and height. */
  datatype Size = Size(width: nat, height: nat)

  /** The separator between width and height in a label. */
  const Separator: char := 'x'

  predicate IsDigit(c: char) {
    '0' <= c <= '9'
  }

  predicate AllDigits(s: string) {
    forall i :: 0 <= i < |s| ==> IsDigit(s[i])
  }

  /** A decimal text as JavaScript prints a natural number: at least one digit
      and no leading zero unless the number is 0 itself. */
  predicate IsCanonicalDecimal(s: string) {
    |s| >= 1 && AllDigits(s) && (|s| > 1 ==> s[0] != '0')
  }

  function DigitChar(d: nat): (c: char)
    requires d < 10
    ensures IsDigit(c) && c as int - '0' as int == d
  {
    (d + '0' as int) as char
  }

  function DigitValue(c: char): (d: nat)
    requires IsDigit(c)
    ensures d < 10 && DigitChar(d) == c
  {
    c as int - '0' as int
  }

  /** The decimal text of `n`, most significant digit first (template-literal
      interpolation of a natural number). */
  function NatToString(n: nat): (s: string)
    ensures IsCanonicalDecimal(s)
    ensures Separator !in s
    decreases n
  {
    if n < 10 then [DigitChar(n)]
    else NatToString(n / 10) + [DigitChar(n % 10)]
  }

  /** The number a string of digits denotes: the reading direction of NatToString. */
  function DecimalValue(s: string): nat
    requires AllDigits(s)
    decreases |s|
  {
    if s == [] then 0
    else DecimalValue(s[..|s| - 1]) * 10 + DigitValue(s[|s| - 1])
  }

  /** Reading back the decimal text of `n` gives `n`. */
  lemma {:induction false} DecimalValueOfNatToString(n: nat)
    ensures DecimalValue(NatToString(n)) == n
    decreases n
  {
    if n >= 10 {
      var s := NatToString(n);
      assert s[..|s| - 1] == NatToString(n / 10);
      DecimalValueOfNatToString(n / 10);
    }
  }

  /** A digit string that does not start with '0' denotes a positive number. */
  lemma {:induction false} DecimalValuePositive(s: string)
    requires |s| >= 1 && AllDigits(s) && s[0] != '0'
    ensures DecimalValue(s) >= 1
    decreases |s|
  {
    if |s| > 1 {
      DecimalValuePositive(s[..|s| - 1]);
    }
  }

  /** Every canonical decimal text is the text of the number it denotes, so
      NatToString is a bijection onto canonical decimal texts. */
  lemma {:induction false} NatToStringOfDecimalValue(s: string)
    requires IsCanonicalDecimal(s)
    ensures NatToString(DecimalValue(s)) == s
    decreases |s|
  {
    if |s| > 1 {
      var p := s[..|s| - 1];
      DecimalValuePositive(p);
      NatToStringOfDecimalValue(p);
      var v := DecimalValue(s);
      assert v / 10 == DecimalValue(p) && v % 10 == DigitValue(s[|s| - 1]);
      assert s == p + [s[|s| - 1]];
    }
  }

  /** Distinct numbers have distinct decimal texts. */
  lemma NatToStringInjective(m: nat, n: nat)
    requires NatToString(m) == NatToString(n)
    ensures m == n
  {
    DecimalValueOfNatToString(m);
    DecimalValueOfNatToString(n);
  }

  /** `s.split(sep)` for a one-character separator: the pieces of `s` between
      occurrences of `sep`; the empty string gives one empty piece. */
  function Split(s: string, sep: char): (parts: seq<string>)
    ensures |parts| >= 1
    ensures forall i :: 0 <= i < |parts| ==> sep !in parts[i]
    decreases |s|
  {
    if s == [] then [[]]
    else
      var rest := Split(s[1..], sep);
      if s[0] == sep then [[]] + rest
      else [[s[0]] + rest[0]] + rest[1..]
  }

  /** `parts.join(sep)`: the inverse of Split. */
  function Join(parts: seq<string>, sep: char): string
    requires |parts| >= 1
    decreases |parts|
  {
    if |parts| == 1 then parts[0]
    else parts[0] + [sep] + Join(parts[1..], sep)
  }

  /** Joining the pieces of a split gives back the original string. */
  lemma {:induction false} JoinSplit(s: string, sep: char)
    ensures Join(Split(s, sep), sep) == s
    decreases |s|
  {
    if s != [] {
      var rest := Split(s[1..], sep);
      JoinSplit(s[1..], sep);
      if s[0] != sep {
        var parts := Split(s, sep);
        assert parts[1..] == rest[1..];
        if |rest| > 1 {
          assert Join(rest, sep) == rest[0] + [sep] + Join(rest[1..], sep);
        }
      }
    }
  }

  /** Splitting a join of separator-free pieces gives back exactly those pieces. */
  lemma {:induction false} SplitJoin(parts: seq<string>, sep: char)
    requires |parts| >= 1
    requires forall i :: 0 <= i < |parts| ==> sep !in parts[i]
    ensures Split(Join(parts, sep), sep) == parts
    decreases |parts|, |parts[0]|
  {
    var head := parts[0];
    if head == [] {
      if |parts| > 1 {
        SplitJoin(parts[1..], sep);
        assert Join(parts, sep)[1..] == Join(parts[1..], sep);
      }
    } else {
      var shorter := [head[1..]] + parts[1..];
      assert forall i :: 0 <= i < |shorter| ==> sep !in shorter[i] by {
        forall i | 0 <= i < |shorter| ensures sep !in shorter[i] {
          if i > 0 { assert shorter[i] == parts[i]; }
        }
      }
      SplitJoin(shorter, sep);
      var j := Join(parts, sep);
      assert j == [head[0]] + Join(shorter, sep);
      assert j[1..] == Join(shorter, sep);
      assert head == [head[0]] + head[1..];
      assert shorter[1..] == parts[1..];
    }
  }

  /** The size a new selection starts from: 50 x 70. */
  function InitialSize(): (s: Size)
    ensures s.width == 50 && s.height == 70
  {
    Size(50, 70)
  }

  /** `stringifySize(width, height)`: the label of a size. */
  function StringifySize(width: nat, height: nat): (text: string)
    ensures ParseSize(text) == [NatToString(width), NatToString(height)]
  {
    var parts := [NatToString(width), NatToString(height)];
    assert Join(parts[1..], Separator) == NatToString(height);
    SplitJoin(parts, Separator);
    NatToString(width) + [Separator] + NatToString(height)
  }

  /** `parseSize(text)`: the pieces of a label between its 'x' characters. */
  function ParseSize(text: string): (parts: seq<string>)
    ensures |parts| >= 1 && Join(parts, Separator) == text
    ensures forall i :: 0 <= i < |parts| ==> Separator !in parts[i]
  {
    JoinSplit(text, Separator);
    Split(text, Separator)
  }

  /** Parsing a label gives exactly two pieces, the decimal texts of the width
      and of the height (the contract of StringifySize), and those pieces read
      back as the width and the height themselves. */
  lemma ParseStringifySize(width: nat, height: nat)
    ensures ParseSize(StringifySize(width, height)) == [NatToString(width), NatToString(height)]
    ensures DecimalValue(ParseSize(StringifySize(width, height))[0]) == width
    ensures DecimalValue(ParseSize(StringifySize(width, height))[1]) == height
  {
    DecimalValueOfNatToString(width);
    DecimalValueOfNatToString(height);
  }

  /** Two sizes share a label only when they are the same size, so labels can
      key the radio buttons of a poster's sizes. */
  lemma StringifySizeInjective(a: Size, b: Size)
    requires StringifySize(a.width, a.height) == StringifySize(b.width, b.height)
    ensures a == b
  {
    ParseStringifySize(a.width, a.height);
    ParseStringifySize(b.width, b.height);
  }
}
