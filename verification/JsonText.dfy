/** The scalar codecs of depend/json: decimal integers and quoted strings, each as the text
    the writer produces and the value the reader makes of it. */
module JsonText {
  import opened Basics
  import opened JsonValues

  // ---- Integers: writing -------------------------------------------------------------

  newtype uint32 = x: int | 0 <= x < 0x1_0000_0000

  predicate IsDigit(c: char) {
    '0' <= c <= '9'
  }

  predicate AllDigits(s: string) {
    forall k :: 0 <= k < |s| ==> IsDigit(s[k])
  }

  function DigitChar(d: int): (c: char)
    requires 0 <= d < 10
    ensures IsDigit(c) && c as int - '0' as int == d
  {
    ('0' as int + d) as char
  }

  function DigitOf(c: char): (d: int)
    requires IsDigit(c)
    ensures 0 <= d < 10
  {
    c as int - '0' as int
  }

  /** The value of a run of decimal digits. */
  function DigitsValue(s: string): (n: nat)
    requires AllDigits(s)
  {
    if s == [] then 0 else DigitsValue(s[..|s| - 1]) * 10 + DigitOf(s[|s| - 1])
  }

  /** A digit more counts the rest tenfold. */
  lemma PlaceValue(s: string, c: char)
    requires AllDigits(s) && 0x30 <= c as int <= 0x39
    ensures AllDigits(s + [c]) && DigitsValue(s + [c]) == 10 * DigitsValue(s) + (c as int - 0x30)
  {
    assert (s + [c])[..|s|] == s;
  }

  /** The shortest decimal text of `n`; reading it back gives `n`. */
  function Decimal(n: nat): (s: string)
    ensures s != [] && AllDigits(s)
    ensures DigitsValue(s) == n
  {
    if n < 10 then [DigitChar(n)]
    else
      var r := Decimal(n / 10) + [DigitChar(n % 10)];
      assert r[..|r| - 1] == Decimal(n / 10);
      r
  }

  function Pow10(n: nat): nat {
    if n == 0 then 1 else 10 * Pow10(n - 1)
  }

  lemma DecimalStep(n: nat, tail: string)
    ensures n >= 10 ==> Decimal(n) + tail == Decimal(n / 10) + ([DigitChar(n % 10)] + tail)
    ensures n < 10 ==> Decimal(n) + tail == [DigitChar(n % 10)] + tail
  {
  }

  lemma {:induction false} DecimalLength(n: nat, k: nat)
    requires n < Pow10(k) && k > 0
    ensures |Decimal(n)| <= k
  {
    if n >= 10 {
      DecimalLength(n / 10, k - 1);
    }
  }

  /** `uintToString`: fills `buffer` backwards from `end` with a NUL and the digits. */
  method UIntToString(value: nat, buffer: array<char>, end: nat) returns (current: nat)
    requires value < 0x1_0000_0000 && 11 <= end <= buffer.Length
    modifies buffer
    ensures end - 11 <= current < end - 1
    ensures buffer[end - 1] == '\0'
    ensures buffer[current..end - 1] == Decimal(value)
    ensures forall k :: 0 <= k < current || end <= k < buffer.Length ==> buffer[k] == old(buffer[k])
  {
    current := end - 1;
    buffer[current] := '\0';
    var v := value;
    ghost var written := "";
    assert Decimal(value) + written == Decimal(value);
    DecimalLength(value, 10);
    while true
      invariant current == end - 1 - |written|
      invariant |Decimal(v)| + |written| <= 10
      invariant buffer[end - 1] == '\0'
      invariant buffer[current..end - 1] == written
      invariant Decimal(value) == Decimal(v) + written
      invariant forall k :: 0 <= k < current || end <= k < buffer.Length ==> buffer[k] == old(buffer[k])
      decreases v
    {
      DecimalStep(v, written);
      current := PutDigit(v % 10, buffer, current, end, written);
      written := [DigitChar(v % 10)] + written;
      v := v / 10;
      if v == 0 {
        break;
      }
    }
  }

  /** One digit more in front of those written. */
  method PutDigit(digit: nat, buffer: array<char>, before: nat, end: nat, ghost written: string) returns (current: nat)
    requires digit < 10 && 0 < before < end <= buffer.Length && buffer[before..end - 1] == written
    modifies buffer
    ensures current == before - 1
    ensures buffer[current..end - 1] == [DigitChar(digit)] + written
    ensures buffer[end - 1] == old(buffer[end - 1])
    ensures forall k :: 0 <= k < current || end <= k < buffer.Length ==> buffer[k] == old(buffer[k])
  {
    current := before - 1;
    buffer[current] := DigitChar(digit);
  }

  /** The text of a signed integer. */
  function IntText(i: int): string {
    if i < 0 then "-" + Decimal(-i) else Decimal(i)
  }

  /** `valueToString(Value::Int)`. The negation wraps in 32 bits, so that the least
      integer is its own negation and is read back as an unsigned magnitude. */
  method ValueToStringInt(value: int) returns (text: string)
    requires MIN_INT <= value <= MAX_INT
    ensures text == IntText(value)
  {
    var buffer := new char[32](_ => '\0');
    var isNegative := value < 0;
    var v := value;
    if isNegative {
      v := if value == MIN_INT then MIN_INT else -value;
    }
    var magnitude := v % 0x1_0000_0000;
    assert magnitude == if isNegative then -value else value;
    var current := UIntToString(magnitude, buffer, buffer.Length);
    ghost var digits := buffer[current..31];
    if isNegative {
      current := current - 1;
      buffer[current] := '-';
      assert buffer[current..31] == ['-'] + digits;
    }
    text := buffer[current..31];
  }

  /** `valueToString(Value::UInt)`. */
  method ValueToStringUInt(value: int) returns (text: string)
    requires 0 <= value <= MAX_UINT
    ensures text == Decimal(value)
  {
    var buffer := new char[32](_ => '\0');
    var current := UIntToString(value, buffer, buffer.Length);
    text := buffer[current..31];
  }

  // ---- Integers: reading -----------------------------------------------------------------

  /** The largest magnitudes `decodeNumber` keeps as integers: it stops accumulating as soon as
      the value so far reaches a tenth of the type's range, so the last few values of each
      range are left to the floating-point path. */
  const MAX_READ_NEGATIVE := 2147483639
  const MAX_READ_UNSIGNED := 4294967289

  predicate IsDoubleMark(c: char) {
    c == '.' || c == 'e' || c == 'E' || c == '+'
  }

  predicate NumChar(c: char) {
    IsDigit(c) || IsDoubleMark(c) || c == '-'
  }

  /** What `readNumber` delimits: a digit or minus sign, then number characters. */
  predicate NumberLexeme(s: string) {
    s != "" && (IsDigit(s[0]) || s[0] == '-') && forall k :: 0 <= k < |s| ==> NumChar(s[k])
  }

  predicate IsDouble(s: string) {
    exists k :: 0 <= k < |s| && (IsDoubleMark(s[k]) || (s[k] == '-' && k != 0))
  }

  /** `decodeDouble`: `scan` stands for `sscanf` with "%lf". */
  function DecodeDouble(scan: string -> Option<real>, text: string): Result<Value, string> {
    match scan(text)
    case Some(r) => Ok(Real(r))
    case None => Err("'" + text + "' is not a number.")
  }

  function Magnitude(text: string): string
    requires NumberLexeme(text)
  {
    if text[0] == '-' then text[1..] else text
  }

  /** What a number token decodes to. */
  function DecodeNumber(scan: string -> Option<real>, text: string): Result<Value, string>
    requires NumberLexeme(text)
  {
    if IsDouble(text) then DecodeDouble(scan, text)
    else
      assert AllDigits(Magnitude(text)) by { IntegerLexeme(text); }
      var n: int := DigitsValue(Magnitude(text));
      if text[0] == '-' then
        if n <= MAX_READ_NEGATIVE then Ok(Int(-n)) else DecodeDouble(scan, text)
      else if n <= MAX_INT then Ok(Int(n))
      else if n <= MAX_READ_UNSIGNED then Ok(UInt(n))
      else DecodeDouble(scan, text)
  }

  lemma IntegerLexeme(text: string)
    requires NumberLexeme(text) && !IsDouble(text)
    ensures AllDigits(Magnitude(text))
  {
    forall k | 0 <= k < |text| && (k > 0 || text[0] != '-') ensures IsDigit(text[k]) {
      assert NumChar(text[k]);
    }
  }

  lemma {:induction false} DigitsPrefix(s: string, k: nat)
    requires AllDigits(s) && k <= |s|
    ensures DigitsValue(s[..k]) <= DigitsValue(s)
  {
    if k < |s| {
      DigitsPrefix(s[..|s| - 1], k);
      assert s[..|s| - 1][..k] == s[..k];
    } else {
      assert s[..k] == s;
    }
  }

  /** The integer part of `Reader::decodeNumber`: `uint32` arithmetic that never overflows and
      decodes exactly the magnitudes below ten times the threshold; None defers to
      `decodeDouble`. */
  method DecodeInteger(text: string) returns (result: Option<Value>)
    requires NumberLexeme(text) && !IsDouble(text)
    ensures forall scan: string -> Option<real> ::
      DecodeNumber(scan, text) == if result.Some? then Ok(result.value) else DecodeDouble(scan, text)
  {
    IntegerLexeme(text);
    ghost var digits := Magnitude(text);
    var current := 0;
    var isNegative := text[current] == '-';
    if isNegative {
      current := current + 1;
    }
    ghost var start := current;
    var threshold: uint32 := if isNegative then 0x8000_0000 / 10 else 0xFFFF_FFFF / 10;
    var value: uint32 := 0;
    while current < |text|
      invariant start <= current <= |text|
      invariant value as int == DigitsValue(digits[..current - start])
      invariant value as int < 10 * threshold as int
    {
      var c := text[current];
      assert c == digits[current - start];
      current := current + 1;
      assert digits[..current - start][..current - start - 1] == digits[..current - start - 1];
      if value >= threshold {
        DigitsPrefix(digits, current - start);
        return None;
      }
      value := value * 10 + DigitOf(c) as uint32;
    }
    assert digits[..current - start] == digits;
    if isNegative {
      return Some(Int(-(value as int)));
    } else if value <= 0x7FFF_FFFF {
      return Some(Int(value as int));
    } else {
      return Some(UInt(value as int));
    }
  }

  /** Writing an integer and decoding the text gives it back exactly when it lies in the range
      the reader keeps as integers. */
  lemma IntTextDecodes(scan: string -> Option<real>, i: int)
    ensures NumberLexeme(IntText(i)) && !IsDouble(IntText(i))
    ensures DecodeNumber(scan, IntText(i)) ==
            if -2147483639 <= i <= 2147483647 then Ok(Int(i))
            else if 2147483647 < i <= 4294967289 then Ok(UInt(i))
            else DecodeDouble(scan, IntText(i))
  {
    var t := IntText(i);
    if i < 0 {
      assert t[1..] == Decimal(-i);
    }
    assert forall k :: 0 <= k < |t| && (k > 0 || i >= 0) ==> IsDigit(t[k]);
    assert Magnitude(t) == Decimal(if i < 0 then -i else i);
  }

  // ---- Strings: writing --------------------------------------------------------------------

  const BACKSPACE := '\U{08}'
  const FORM_FEED := '\U{0C}'

  predicate NeedsEscape(c: char) {
    || c == '\"' || c == '\\' || c == BACKSPACE || c == FORM_FEED
    || c == '\n' || c == '\r' || c == '\t'
  }

  function EscapeChar(c: char): string {
    if c == '\"' then "\\\""
    else if c == '\\' then "\\\\"
    else if c == BACKSPACE then "\\b"
    else if c == FORM_FEED then "\\f"
    else if c == '\n' then "\\n"
    else if c == '\r' then "\\r"
    else if c == '\t' then "\\t"
    else [c]
  }

  function Escape(s: string): string {
    if s == [] then [] else EscapeChar(s[0]) + Escape(s[1..])
  }

  function Quote(s: string): string {
    "\"" + Escape(s) + "\""
  }

  /** `valueToQuotedString`: the unescaped fast path agrees with the escaping loop. */
  method ValueToQuotedString(value: string) returns (result: string)
    ensures result == Quote(value)
  {
    if forall k :: 0 <= k < |value| ==> !NeedsEscape(value[k]) {
      PlainEscape(value);
      return "\"" + value + "\"";
    }
    result := "\"";
    var c := 0;
    while c < |value|
      invariant 0 <= c <= |value|
      invariant result + Escape(value[c..]) == "\"" + Escape(value)
    {
      assert value[c..][1..] == value[c + 1..];
      result := result + EscapeChar(value[c]);
      c := c + 1;
    }
    result := result + "\"";
  }

  lemma {:induction false} PlainEscape(s: string)
    requires forall k :: 0 <= k < |s| ==> !NeedsEscape(s[k])
    ensures Escape(s) == s
  {
    if s != [] {
      PlainEscape(s[1..]);
    }
  }

  // ---- Strings: reading ---------------------------------------------------------------------

  predicate IsHex(c: char) {
    '0' <= c <= '9' || 'a' <= c <= 'f' || 'A' <= c <= 'F'
  }

  /** The character a one-letter escape stands for. */
  function EscapeMeaning(e: char): Option<char> {
    match e
    case '\"' => Some('\"')
    case '/' => Some('/')
    case '\\' => Some('\\')
    case 'b' => Some(BACKSPACE)
    case 'f' => Some(FORM_FEED)
    case 'n' => Some('\n')
    case 'r' => Some('\r')
    case 't' => Some('\t')
    case _ => None
  }

  function Prepend(p: string, r: Result<string, string>): Result<string, string> {
    match r
    case Ok(s) => Ok(p + s)
    case Err(e) => Err(e)
  }

  lemma PrependTwice(p: string, q: string, r: Result<string, string>)
    ensures Prepend(p, Prepend(q, r)) == Prepend(p + q, r)
    ensures Prepend([], r) == r
    ensures Prepend(p, Ok([])) == Ok(p)
  {
    if r.Ok? {
      assert p + (q + r.value) == p + q + r.value;
      assert [] + r.value == r.value;
    }
    assert p + [] == p;
  }

  const EMPTY_ESCAPE := "Empty escape sequence in string"
  const BAD_ESCAPE := "Bad escape sequence in string"
  const UNICODE_SHORT := "Bad unicode escape sequence in string: four digits expected."
  const UNICODE_DIGIT := "Bad unicode escape sequence in string: hexadecimal digit expected."

  /** What the characters between the quotes decode to. A well-formed unicode escape
      decodes to nothing: the code point is discarded. */
  function Unescape(s: string): Result<string, string> {
    if s == [] || s[0] == '\"' then Ok([])
    else if s[0] != '\\' then Prepend([s[0]], Unescape(s[1..]))
    else if |s| == 1 then Err(EMPTY_ESCAPE)
    else if s[1] == 'u' then
      if |s| < 6 then Err(UNICODE_SHORT)
      else if !(IsHex(s[2]) && IsHex(s[3]) && IsHex(s[4]) && IsHex(s[5])) then Err(UNICODE_DIGIT)
      else Unescape(s[6..])
    else
      match EscapeMeaning(s[1])
      case None => Err(BAD_ESCAPE)
      case Some(c) => Prepend([c], Unescape(s[2..]))
  }

  /** The loop of `Reader::decodeString` on a string token, quotes included. */
  method DecodeStringToken(token: string) returns (result: Result<string, string>)
    requires |token| >= 2
    ensures result == Unescape(token[1..|token| - 1])
  {
    var decoded := "";
    var current := 1;
    var end := |token| - 1;
    ghost var inner := token[1..end];
    PrependTwice([], [], Unescape(inner));
    while current != end
      invariant 1 <= current <= end
      invariant Unescape(inner) == Prepend(decoded, Unescape(token[current..end]))
      decreases end - current
    {
      ghost var left := token[current..end];
      var c := token[current];
      current := current + 1;
      if c == '\"' {
        break;
      } else if c == '\\' {
        if current == end {
          return Err(EMPTY_ESCAPE);
        }
        var escape := token[current];
        current := current + 1;
        assert left[2..] == token[current..end];
        if escape == 'u' {
          if end - current < 4 {
            return Err(UNICODE_SHORT);
          }
          var index := 0;
          while index < 4
            invariant 0 <= index <= 4
            invariant forall k :: 2 <= k < 2 + index ==> IsHex(left[k])
          {
            assert left[2 + index] == token[current + index];
            if !IsHex(token[current + index]) {
              return Err(UNICODE_DIGIT);
            }
            index := index + 1;
          }
          current := current + 4;
          assert left[6..] == token[current..end];
        } else {
          match EscapeMeaning(escape)
          case Some(m) =>
            PrependTwice(decoded, [m], Unescape(token[current..end]));
            decoded := decoded + [m];
          case None => return Err(BAD_ESCAPE);
        }
      } else {
        assert left[1..] == token[current..end];
        PrependTwice(decoded, [c], Unescape(token[current..end]));
        decoded := decoded + [c];
      }
    }
    PrependTwice(decoded, [], Ok([]));
    return Ok(decoded);
  }

  /** One escaped character decodes to itself, whatever follows it. */
  lemma UnescapeEscapeChar(c: char, rest: string)
    ensures Unescape(EscapeChar(c) + rest) == Prepend([c], Unescape(rest))
  {
    var e := EscapeChar(c);
    assert (e + rest)[|e|..] == rest;
    if NeedsEscape(c) {
      assert |e| == 2 && e[0] == '\\' && EscapeMeaning(e[1]) == Some(c);
      assert (e + rest)[0] == e[0] && (e + rest)[1] == e[1];
    } else {
      assert (e + rest)[0] == c;
    }
  }

  /** Decoding undoes escaping, for every string. */
  lemma {:induction false} UnescapeEscape(s: string)
    ensures Unescape(Escape(s)) == Ok(s)
  {
    if s != [] {
      UnescapeEscape(s[1..]);
      UnescapeEscapeChar(s[0], Escape(s[1..]));
      assert [s[0]] + s[1..] == s;
    }
  }
}
