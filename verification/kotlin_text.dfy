/**
 * The parts of the Kotlin standard library (JVM flavour) that the view model
 * relies on: 32- and 64-bit integers, `Char.isWhitespace`, `String.isBlank`,
 * `String.trim`, `String.toIntOrNull` and `String.toInt`.
 *
 * Kotlin strings are sequences of UTF-16 code units; here a string is a
 * sequence of Unicode scalar values. A character outside the Basic
 * Multilingual Plane is neither whitespace nor a digit in either view, so
 * the predicates below agree with the JVM on every such character. A Kotlin
 * string may also hold an unpaired surrogate, which no `char` here can be;
 * it too is neither whitespace nor a digit.
 */
module KotlinText {
  import opened Optional

  const IntMin: int := -0x8000_0000
  const IntMax: int := 0x7FFF_FFFF
  const LongMin: int := -0x8000_0000_0000_0000
  const LongMax: int := 0x7FFF_FFFF_FFFF_FFFF

  /** Kotlin `Int`. */
  type Int32 = n: int | IntMin <= n <= IntMax

  /** Kotlin `Long`. */
  type Int64 = n: int | LongMin <= n <= LongMax

  /**
   * `Char.isWhitespace` on the JVM: `Character.isWhitespace(c) ||
   * Character.isSpaceChar(c)`, that is the control characters U+0009..U+000D
   * and U+001C..U+001F plus every space, line and paragraph separator of
   * Unicode 15.
   */
  predicate IsWhitespace(c: char) {
    var u := c as int;
    || 0x09 <= u <= 0x0D
    || 0x1C <= u <= 0x20
    || u == 0xA0
    || u == 0x1680
    || 0x2000 <= u <= 0x200A
    || u == 0x2028 || u == 0x2029
    || u == 0x202F || u == 0x205F || u == 0x3000
  }

  /** `CharSequence.isBlank`: empty, or whitespace only. */
  predicate IsBlank(s: string) {
    forall i :: 0 <= i < |s| ==> IsWhitespace(s[i])
  }

  /** Number of whitespace characters at the start of `s`. */
  function LeadingBlanks(s: string): (k: nat)
    ensures k <= |s|
    ensures forall i :: 0 <= i < k ==> IsWhitespace(s[i])
    ensures k < |s| ==> !IsWhitespace(s[k])
  {
    if |s| == 0 || !IsWhitespace(s[0]) then 0 else 1 + LeadingBlanks(s[1..])
  }

  /** Number of whitespace characters at the end of `s`. */
  function TrailingBlanks(s: string): (k: nat)
    ensures k <= |s|
    ensures forall i :: |s| - k <= i < |s| ==> IsWhitespace(s[i])
    ensures k < |s| ==> !IsWhitespace(s[|s| - 1 - k])
  {
    if |s| == 0 || !IsWhitespace(s[|s| - 1]) then 0 else 1 + TrailingBlanks(s[..|s| - 1])
  }

  /**
   * `String.trim()`: the text between the first and the last
   * non-whitespace character, both included.
   */
  function Trim(s: string): (t: string)
    ensures |t| <= |s|
    ensures t != [] ==> !IsWhitespace(t[0]) && !IsWhitespace(t[|t| - 1])
    ensures exists i, j :: 0 <= i <= j <= |s| && t == s[i..j] && IsBlank(s[..i]) && IsBlank(s[j..])
  {
    var start := LeadingBlanks(s);
    var rest := s[start..];
    var t := rest[..|rest| - TrailingBlanks(rest)];
    var end := start + |t|;
    assert t == s[start..end];
    assert IsBlank(s[..start]);
    assert IsBlank(s[end..]) by {
      forall k | 0 <= k < |s| - end ensures IsWhitespace(s[end..][k]) {
        assert s[end..][k] == rest[|t| + k];
      }
    }
    t
  }

  /** A text is blank exactly when trimming it leaves nothing. */
  lemma BlankIffTrimEmpty(s: string)
    ensures IsBlank(s) <==> Trim(s) == []
  {
    var start := LeadingBlanks(s);
    var rest := s[start..];
    if !IsBlank(s) {
      assert start < |s|;
      assert rest[0] == s[start];
      assert TrailingBlanks(rest) < |rest|;
    }
  }

  /**
   * `Character.digit(c, 10)`: the decimal value of `c`, or -1 when it is no
   * digit. The digits are the blocks of ten decimal digits (Unicode category
   * Nd) of the Basic Multilingual Plane in Unicode 15: ASCII, Arabic-Indic,
   * Extended Arabic-Indic, NKo, the Indic scripts, Sinhala, Thai, Lao,
   * Tibetan, Myanmar, Khmer, Mongolian, Limbu, New Tai Lue, Tai Tham,
   * Balinese, Sundanese, Lepcha, Ol Chiki, Vai, Saurashtra, Kayah Li,
   * Javanese, Cham, Meetei Mayek and the fullwidth digits. A digit's value is
   * its distance from the zero of its block.
   */
  function DigitOf(c: char): (d: int)
    ensures -1 <= d <= 9
    ensures '0' <= c <= '9' ==> d == c as int - '0' as int
  {
    var u := c as int;
    if 0x0030 <= u <= 0x0039 then u - 0x0030
    else if 0x0660 <= u <= 0x0669 then u - 0x0660
    else if 0x06F0 <= u <= 0x06F9 then u - 0x06F0
    else if 0x07C0 <= u <= 0x07C9 then u - 0x07C0
    else if 0x0966 <= u <= 0x096F then u - 0x0966
    else if 0x09E6 <= u <= 0x09EF then u - 0x09E6
    else if 0x0A66 <= u <= 0x0A6F then u - 0x0A66
    else if 0x0AE6 <= u <= 0x0AEF then u - 0x0AE6
    else if 0x0B66 <= u <= 0x0B6F then u - 0x0B66
    else if 0x0BE6 <= u <= 0x0BEF then u - 0x0BE6
    else if 0x0C66 <= u <= 0x0C6F then u - 0x0C66
    else if 0x0CE6 <= u <= 0x0CEF then u - 0x0CE6
    else if 0x0D66 <= u <= 0x0D6F then u - 0x0D66
    else if 0x0DE6 <= u <= 0x0DEF then u - 0x0DE6
    else if 0x0E50 <= u <= 0x0E59 then u - 0x0E50
    else if 0x0ED0 <= u <= 0x0ED9 then u - 0x0ED0
    else if 0x0F20 <= u <= 0x0F29 then u - 0x0F20
    else if 0x1040 <= u <= 0x1049 then u - 0x1040
    else if 0x1090 <= u <= 0x1099 then u - 0x1090
    else if 0x17E0 <= u <= 0x17E9 then u - 0x17E0
    else if 0x1810 <= u <= 0x1819 then u - 0x1810
    else if 0x1946 <= u <= 0x194F then u - 0x1946
    else if 0x19D0 <= u <= 0x19D9 then u - 0x19D0
    else if 0x1A80 <= u <= 0x1A89 then u - 0x1A80
    else if 0x1A90 <= u <= 0x1A99 then u - 0x1A90
    else if 0x1B50 <= u <= 0x1B59 then u - 0x1B50
    else if 0x1BB0 <= u <= 0x1BB9 then u - 0x1BB0
    else if 0x1C40 <= u <= 0x1C49 then u - 0x1C40
    else if 0x1C50 <= u <= 0x1C59 then u - 0x1C50
    else if 0xA620 <= u <= 0xA629 then u - 0xA620
    else if 0xA8D0 <= u <= 0xA8D9 then u - 0xA8D0
    else if 0xA900 <= u <= 0xA909 then u - 0xA900
    else if 0xA9D0 <= u <= 0xA9D9 then u - 0xA9D0
    else if 0xA9F0 <= u <= 0xA9F9 then u - 0xA9F0
    else if 0xAA50 <= u <= 0xAA59 then u - 0xAA50
    else if 0xABF0 <= u <= 0xABF9 then u - 0xABF0
    else if 0xFF10 <= u <= 0xFF19 then u - 0xFF10
    else -1
  }

  /** No whitespace character is a digit. */
  lemma WhitespaceIsNoDigit(c: char)
    ensures IsWhitespace(c) ==> DigitOf(c) == -1
  {
  }

  predicate AllDigits(s: string) {
    forall i :: 0 <= i < |s| ==> DigitOf(s[i]) >= 0
  }

  /** The value of a run of decimal digits, most significant first. */
  function DigitsValue(s: string): nat
    requires AllDigits(s)
  {
    if s == [] then 0 else DigitsValue(s[..|s| - 1]) * 10 + DigitOf(s[|s| - 1])
  }

  /** The digits `digits` read with the given sign, when the value is an `Int`. */
  function SignedValue(negative: bool, digits: string): Option<Int32> {
    if !AllDigits(digits) then None
    else
      var v: int := DigitsValue(digits);
      var n := if negative then -v else v;
      if IntMin <= n <= IntMax then Some(n) else None
  }

  /**
   * `String.toIntOrNull()` (radix 10). A leading character below '0' is
   * read as a sign: '-' or '+', and only when digits follow it. Every other
   * character must be a decimal digit, and the value must fit an `Int`.
   * Kotlin accumulates the value negatively and stops at the first step that
   * would leave the `Int` range; that gives `null` exactly when the exact
   * value lies outside the range, which is what is written here.
   */
  function ToIntOrNull(s: string): (r: Option<Int32>)
    ensures r.Some? ==> s != [] && AllDigits(s[1..]) && (AllDigits(s) || s[0] == '-' || s[0] == '+')
    ensures s != [] && AllDigits(s) && DigitsValue(s) <= IntMax ==> r == Some(DigitsValue(s))
  {
    if |s| == 0 then None
    else if s[0] < '0' then
      if |s| == 1 then None
      else if s[0] == '-' then SignedValue(true, s[1..])
      else if s[0] == '+' then SignedValue(false, s[1..])
      else None
    else SignedValue(false, s)
  }

  /**
   * What `toIntOrNull` reads, in full: the text is an optional '-' or '+'
   * followed by one or more decimal digits, and the result is their value
   * with that sign, when it is an `Int`.
   */
  lemma ToIntOrNullReads(s: string, n: int)
    ensures ToIntOrNull(s) == Some(n) <==>
      && s != []
      && var digits := if s[0] == '-' || s[0] == '+' then s[1..] else s;
      && digits != [] && AllDigits(digits)
      && n == (if s[0] == '-' then -(DigitsValue(digits) as int) else DigitsValue(digits))
      && IntMin <= n <= IntMax
  {
    if s == [] {
    } else if s[0] == '-' || s[0] == '+' {
      if |s| > 1 {
        assert ToIntOrNull(s) == SignedValue(s[0] == '-', s[1..]);
      }
    } else if s[0] < '0' {
      assert DigitOf(s[0]) == -1;
    } else {
      assert ToIntOrNull(s) == SignedValue(false, s);
    }
  }

  /**
   * A text `toIntOrNull` accepts is not blank and holds no whitespace at
   * all: every character is a sign or a digit.
   */
  lemma ParsedTextHasNoWhitespace(s: string)
    requires ToIntOrNull(s).Some?
    ensures s != [] && !IsBlank(s)
    ensures forall i :: 0 <= i < |s| ==> !IsWhitespace(s[i])
  {
    forall i | 0 <= i < |s| ensures !IsWhitespace(s[i]) {
      WhitespaceIsNoDigit(s[i]);
      if s[0] < '0' && i > 0 {
        assert s[1..][i - 1] == s[i];
      }
    }
  }

  /**
   * The digit loop of `Integer.parseInt` (radix 10), which `String.toInt()`
   * calls: the value read from `digits` so far, accumulated negatively, or
   * `None` once the loop has thrown `NumberFormatException`. A step throws on
   * a non-digit, when the value is already below `limit / 10` (Java's
   * division, which truncates toward zero), or when multiplying by ten and
   * subtracting the digit would go below `limit`.
   */
  function NegativeAccumulation(digits: string, limit: int): (r: Option<int>)
    requires limit < 0
    ensures r.Some? ==> limit <= r.value <= 0
  {
    if digits == [] then Some(0)
    else match NegativeAccumulation(digits[..|digits| - 1], limit)
      case None => None
      case Some(result) =>
        var digit := DigitOf(digits[|digits| - 1]);
        var multmin := -(-limit / 10);
        if digit < 0 || result < multmin then None
        else if result * 10 < limit + digit then None
        else Some(result * 10 - digit)
  }

  /** Digits are checked one by one, from the last. */
  lemma AllDigitsOfInit(digits: string)
    requires digits != []
    ensures AllDigits(digits) <==>
      AllDigits(digits[..|digits| - 1]) && DigitOf(digits[|digits| - 1]) >= 0
  {
    var init := digits[..|digits| - 1];
    forall i | 0 <= i < |init| ensures init[i] == digits[i] { }
  }

  /**
   * One step of the digit loop, for a value `v` read so far within
   * `bound`: either of Java's two overflow tests fires exactly when the
   * next value `v * 10 + digit` passes `bound`.
   */
  lemma OverflowStep(v: int, digit: int, bound: int)
    requires 0 <= v <= bound && 0 <= digit <= 9
    ensures (-v < -(bound / 10) || -v * 10 < -bound + digit) <==> v * 10 + digit > bound
  {
    assert bound == bound / 10 * 10 + bound % 10;
  }

  /**
   * The digit loop throws exactly when a character is no digit or the
   * value passes `-limit`; otherwise it holds the value, negated.
   */
  lemma {:induction false} NegativeAccumulationReadsValue(digits: string, limit: int)
    requires limit < 0
    ensures NegativeAccumulation(digits, limit) ==
      if AllDigits(digits) && DigitsValue(digits) <= -limit then Some(-(DigitsValue(digits) as int)) else None
  {
    if digits != [] {
      var init := digits[..|digits| - 1];
      NegativeAccumulationReadsValue(init, limit);
      AllDigitsOfInit(digits);
      if AllDigits(digits) {
        var v := DigitsValue(init);
        var digit := DigitOf(digits[|digits| - 1]);
        assert DigitsValue(digits) == v * 10 + digit;
        if v <= -limit {
          OverflowStep(v, digit, -limit);
        }
      }
    }
  }

  /**
   * The digit loop of `Integer.parseInt` on the text after the sign, run
   * against `Int.MIN_VALUE` for a negative number and `-Int.MAX_VALUE`
   * otherwise; a positive result is negated back.
   */
  function ParseDigits(negative: bool, digits: string): Option<Int32> {
    match NegativeAccumulation(digits, if negative then IntMin else -IntMax)
      case None => None
      case Some(result) => Some(if negative then result else -result)
  }

  /**
   * `Integer.parseInt(s)` (radix 10), `None` standing for
   * `NumberFormatException`. A leading character below '0' must be '-' or
   * '+' and must be followed by more; the rest goes to the digit loop.
   */
  function ParseInt(s: string): Option<Int32> {
    if |s| == 0 then None
    else if s[0] < '0' then
      if s[0] != '-' && s[0] != '+' then None
      else if |s| == 1 then None
      else ParseDigits(s[0] == '-', s[1..])
    else ParseDigits(false, s)
  }

  /** The digit loop reads the value of the digits when it fits, with the sign. */
  lemma ParseDigitsReadsSignedValue(negative: bool, digits: string)
    ensures ParseDigits(negative, digits) == SignedValue(negative, digits)
  {
    NegativeAccumulationReadsValue(digits, if negative then IntMin else -IntMax);
  }

  /**
   * `toInt()` throws exactly on the texts for which `toIntOrNull()` is null,
   * and reads the same value from every other text: Java's overflow test
   * on the negative accumulation is the range test on the exact value.
   */
  lemma ParseIntAgrees(s: string)
    ensures ParseInt(s) == ToIntOrNull(s)
  {
    if |s| > 1 && (s[0] == '-' || s[0] == '+') {
      ParseDigitsReadsSignedValue(s[0] == '-', s[1..]);
    } else if |s| > 0 && s[0] >= '0' {
      ParseDigitsReadsSignedValue(false, s);
    }
  }

  /**
   * `String.toInt()` on a text `Integer.parseInt` accepts (on any other text
   * it throws). It reads the value `toIntOrNull()` reads.
   */
  function ToInt(s: string): (n: Int32)
    requires ParseInt(s).Some?
    ensures ToIntOrNull(s) == Some(n)
  {
    ParseIntAgrees(s);
    ParseInt(s).value
  }

  /** The ASCII digit for `d`. */
  function AsciiDigit(d: int): (c: char)
    requires 0 <= d <= 9
    ensures '0' <= c <= '9' && DigitOf(c) == d
  {
    ('0' as int + d) as char
  }

  /** Decimal digits of `n` without leading zeros, as `Int.toString` writes them. */
  function NatToDigits(n: nat): (s: string)
    ensures s != [] && AllDigits(s) && DigitsValue(s) == n
    ensures '0' <= s[0] <= '9'
    decreases n
  {
    if n < 10 then [AsciiDigit(n)]
    else
      var s := NatToDigits(n / 10) + [AsciiDigit(n % 10)];
      assert s[..|s| - 1] == NatToDigits(n / 10);
      s
  }

  /** `Int.toString()`: optional '-' followed by the decimal digits. */
  function IntToString(n: int): string {
    if n < 0 then "-" + NatToDigits(-n) else NatToDigits(n)
  }

  /**
   * `toIntOrNull` reads back every `Int` that `toString` writes, and refuses
   * the decimal text of every integer outside the `Int` range.
   */
  lemma ToIntOrNullOfToString(n: int)
    ensures ToIntOrNull(IntToString(n)) == if IntMin <= n <= IntMax then Some(n) else None
  {
    var s := IntToString(n);
    if n < 0 {
      var m: nat := -n;
      var digits := NatToDigits(m);
      assert s[1..] == digits;
    }
  }
}
