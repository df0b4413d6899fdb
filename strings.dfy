/**
 * The Rust standard-library text operations the bridge relies on:
 * `str::split` on a single character, `u8::from_str` (what `.parse::<u8>()` calls),
 * and the UTF-8 well-formedness test behind `String::from_utf8`.
 */
module Strings {
  import opened Base

  // ---------------------------------------------------------------------------
  // str::split(sep)
  // ---------------------------------------------------------------------------

  /** Number of occurrences of `c` in `s`. */
  function Count(s: string, c: char): nat
  {
    if s == [] then 0 else (if s[0] == c then 1 else 0) + Count(s[1..], c)
  }

  /**
   * `s.split(sep).collect::<Vec<&str>>()`: the pieces between separators, including the
   * empty piece before a leading, after a trailing, or between two adjacent separators.
   * There is always at least one piece, and one more piece than separators.
   */
  function Split(s: string, sep: char): (fields: seq<string>)
    ensures |fields| == Count(s, sep) + 1
    ensures forall i :: 0 <= i < |fields| ==> sep !in fields[i]
    decreases |s|
  {
    if s == [] then [""]
    else
      var rest := Split(s[1..], sep);
      if s[0] == sep then [""] + rest
      else [[s[0]] + rest[0]] + rest[1..]
  }

  /** The pieces glued back together with `sep` between neighbours (the inverse of Split). */
  function Join(fields: seq<string>, sep: char): string
    requires |fields| >= 1
  {
    if |fields| == 1 then fields[0] else fields[0] + [sep] + Join(fields[1..], sep)
  }

  /** Splitting loses nothing: joining the pieces gives back the original text. */
  lemma {:induction false} JoinSplit(s: string, sep: char)
    ensures Join(Split(s, sep), sep) == s
    decreases |s|
  {
    if s != [] {
      JoinSplit(s[1..], sep);
      var rest := Split(s[1..], sep);
      if s[0] == sep {
        assert Split(s, sep) == [""] + rest;
        assert ([""] + rest)[1..] == rest;
      } else {
        var fields := Split(s, sep);
        assert fields == [[s[0]] + rest[0]] + rest[1..];
        if |rest| == 1 {
          assert fields == [[s[0]] + rest[0]];
        } else {
          assert fields[1..] == rest[1..];
          assert Join(rest, sep) == rest[0] + [sep] + Join(rest[1..], sep);
        }
      }
    }
  }

  /** Text without a separator is a single piece. */
  lemma {:induction false} SplitNoSeparator(a: string, sep: char)
    requires sep !in a
    ensures Split(a, sep) == [a]
    decreases |a|
  {
    if a != [] {
      SplitNoSeparator(a[1..], sep);
      assert [a[0]] + a[1..] == a;
    }
  }

  /** The first piece ends at the first separator; the rest is split on its own. */
  lemma {:induction false} SplitFirst(a: string, sep: char, b: string)
    requires sep !in a
    ensures Split(a + [sep] + b, sep) == [a] + Split(b, sep)
    decreases |a|
  {
    if a == [] {
      assert a + [sep] + b == [sep] + b;
      assert ([sep] + b)[1..] == b;
    } else {
      SplitFirst(a[1..], sep, b);
      assert (a + [sep] + b)[1..] == a[1..] + [sep] + b;
      assert [a[0]] + a[1..] == a;
    }
  }

  /** Joining separator-free pieces and splitting again gives back the same pieces. */
  lemma {:induction false} SplitJoin(fields: seq<string>, sep: char)
    requires |fields| >= 1
    requires forall i :: 0 <= i < |fields| ==> sep !in fields[i]
    ensures Split(Join(fields, sep), sep) == fields
    decreases |fields|
  {
    if |fields| == 1 {
      SplitNoSeparator(fields[0], sep);
    } else {
      SplitJoin(fields[1..], sep);
      SplitFirst(fields[0], sep, Join(fields[1..], sep));
      assert fields == [fields[0]] + fields[1..];
    }
  }

  // ---------------------------------------------------------------------------
  // u8::from_str
  // ---------------------------------------------------------------------------

  predicate IsDigit(c: char) { '0' <= c <= '9' }

  predicate AllDigits(s: string) { forall i :: 0 <= i < |s| ==> IsDigit(s[i]) }

  /** The number a string of decimal digits denotes (leading zeros allowed). */
  function DecimalValue(digits: string): nat
    requires AllDigits(digits)
  {
    if digits == [] then 0
    else 10 * DecimalValue(digits[..|digits| - 1]) + (digits[|digits| - 1] as int - '0' as int)
  }

  /**
   * `s.parse::<u8>()`: an optional leading '+' followed by at least one ASCII digit, with no
   * other character (no '-', no whitespace), denoting a value of at most 255. Anything else is
   * an error, which the bridge turns into a panic with `unwrap`.
   */
  function ParseU8(s: string): Option<byte>
  {
    var digits := if |s| > 0 && s[0] == '+' then s[1..] else s;
    if digits == [] || !AllDigits(digits) || DecimalValue(digits) > 255 then None
    else Some(DecimalValue(digits))
  }

  function DigitChar(d: nat): (c: char)
    requires d < 10
    ensures IsDigit(c) && c as int - '0' as int == d
  {
    (d + '0' as int) as char
  }

  /** The decimal rendering of `n` without leading zeros, as the microcontroller prints it. */
  function ShowDecimal(n: nat): (s: string)
    ensures |s| >= 1
  {
    if n < 10 then [DigitChar(n)] else ShowDecimal(n / 10) + [DigitChar(n % 10)]
  }

  lemma {:induction false} ShowDecimalDigits(n: nat)
    ensures AllDigits(ShowDecimal(n)) && DecimalValue(ShowDecimal(n)) == n
  {
    if n >= 10 {
      ShowDecimalDigits(n / 10);
      var s := ShowDecimal(n);
      assert s[..|s| - 1] == ShowDecimal(n / 10);
    }
  }

  /**
   * Parsing a printed number gives it back exactly when it fits in a `u8`;
   * 256 and above are rejected, not truncated.
   */
  lemma ParseShowDecimal(n: nat)
    ensures ParseU8(ShowDecimal(n)) == if n <= 255 then Some(n) else None
  {
    ShowDecimalDigits(n);
  }

  /** A printed number never contains a comma, so it is always a single `split(",")` piece. */
  lemma ShowDecimalHasNoComma(n: nat)
    ensures ',' !in ShowDecimal(n)
  {
    ShowDecimalDigits(n);
    var s := ShowDecimal(n);
    assert forall i :: 0 <= i < |s| ==> s[i] != ',';
  }

  // ---------------------------------------------------------------------------
  // String::from_utf8
  // ---------------------------------------------------------------------------

  predicate IsContinuation(b: byte) { 0x80 <= b <= 0xBF }

  /**
   * Length of the well-formed UTF-8 byte sequence at the start of `b`, or 0 when `b` does not
   * start with one. The cases are the rows of Table 3-7 ("Well-Formed UTF-8 Byte Sequences")
   * in section 3.9 of the Unicode Standard: no overlong forms, no surrogates, nothing above U+10FFFF.
   */
  function SequenceLength(b: seq<byte>): (n: nat)
    ensures n <= |b|
    ensures n > 0 ==> |b| > 0 && (n == 1 <==> b[0] < 0x80)
  {
    if b == [] then 0
    else if b[0] < 0x80 then 1
    else if 0xC2 <= b[0] <= 0xDF then
      (if |b| >= 2 && IsContinuation(b[1]) then 2 else 0)
    else if 0xE0 <= b[0] <= 0xEF then
      var lo := if b[0] == 0xE0 then 0xA0 else 0x80;
      var hi := if b[0] == 0xED then 0x9F else 0xBF;
      (if |b| >= 3 && lo <= b[1] <= hi && IsContinuation(b[2]) then 3 else 0)
    else if 0xF0 <= b[0] <= 0xF4 then
      var lo := if b[0] == 0xF0 then 0x90 else 0x80;
      var hi := if b[0] == 0xF4 then 0x8F else 0xBF;
      (if |b| >= 4 && lo <= b[1] <= hi && IsContinuation(b[2]) && IsContinuation(b[3]) then 4 else 0)
    else 0
  }

  /** `String::from_utf8(bytes).is_ok()`: the bytes are a concatenation of well-formed sequences. */
  predicate ValidUtf8(b: seq<byte>)
    decreases |b|
  {
    b == [] || (SequenceLength(b) > 0 && ValidUtf8(b[SequenceLength(b)..]))
  }

  /** Plain ASCII is always accepted. */
  lemma {:induction false} AsciiIsValidUtf8(b: seq<byte>)
    requires forall i :: 0 <= i < |b| ==> b[i] < 0x80
    ensures ValidUtf8(b)
    decreases |b|
  {
    if b != [] {
      AsciiIsValidUtf8(b[1..]);
    }
  }

  /** A lone continuation byte, an overlong form and a surrogate are refused; "é" and U+10FFFF are accepted. */
  lemma Utf8Examples()
    ensures !ValidUtf8([0x80]) && !ValidUtf8([0xC0, 0x80]) && !ValidUtf8([0xED, 0xA0, 0x80])
    ensures ValidUtf8([0xC3, 0xA9]) && ValidUtf8([0xF4, 0x8F, 0xBF, 0xBF])
  {
    assert [0xC3, 0xA9][2..] == [];
    assert [0xF4, 0x8F, 0xBF, 0xBF][4..] == [];
  }
}
