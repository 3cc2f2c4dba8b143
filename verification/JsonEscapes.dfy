/** What a string token says, character by character: section 7 of RFC 8259, but for the code points
    of the long escapes, which this reader checks and drops. */
module JsonEscapes {
  import opened Basics
  import opened JsonText

  /** A character, a two-character escape, or a long escape with its digits. */
  datatype Piece = Plain(c: char) | Short(e: char) | Long(digits: string)

  function Spelling(p: Piece): string {
    match p
    case Plain(c) => [c]
    case Short(e) => ['\\', e]
    case Long(digits) => "\\u" + digits
  }

  /** `0` to `9`, `A` to `F`, `a` to `f`. */
  predicate HexDigit(c: char) {
    0x30 <= c as int <= 0x39 || 0x41 <= c as int <= 0x46 || 0x61 <= c as int <= 0x66
  }

  /** The characters after a backslash that make a two-character escape. */
  predicate IsShort(e: char) {
    e == '\"' || e == '\\' || e == '/' || e == 'b' || e == 'f' || e == 'n' || e == 'r' || e == 't'
  }

  predicate IsPiece(p: Piece) {
    match p
    case Plain(c) => c != '\"' && c != '\\'
    case Short(e) => IsShort(e)
    case Long(digits) => |digits| == 4 && forall k :: 0 <= k < 4 ==> HexDigit(digits[k])
  }

  /** The code of the character a two-character escape stands for. */
  function ShortCode(e: char): int
    requires IsShort(e)
  {
    if e == '\"' then 0x22 else if e == '\\' then 0x5C else if e == '/' then 0x2F
    else if e == 'b' then 8 else if e == 'f' then 12 else if e == 'n' then 10
    else if e == 'r' then 13 else 9
  }

  function Saying(p: Piece): string
    requires IsPiece(p)
  {
    match p
    case Plain(c) => [c]
    case Short(e) => [ShortCode(e) as char]
    case Long(_) => ""
  }

  predicate ArePieces(ps: seq<Piece>) {
    forall k :: 0 <= k < |ps| ==> IsPiece(ps[k])
  }

  function Spellings(ps: seq<Piece>): string {
    if ps == [] then "" else Spelling(ps[0]) + Spellings(ps[1..])
  }

  function Sayings(ps: seq<Piece>): string
    requires ArePieces(ps)
  {
    if ps == [] then "" else Saying(ps[0]) + Sayings(ps[1..])
  }

  /** Decoding stops at the end, or at a quote that is not escaped. */
  predicate Stops(rest: string) {
    rest == "" || rest[0] == '\"'
  }

  // ---- One piece -------------------------------------------------------------------------------

  /** The table of escapes, by the codes of the characters. */
  lemma ShortMeaning(e: char)
    ensures IsShort(e) ==> EscapeMeaning(e) == Some(ShortCode(e) as char)
    ensures !IsShort(e) ==> EscapeMeaning(e) == None
  {
  }

  lemma HexIsHex(c: char)
    ensures IsHex(c) <==> HexDigit(c)
  {
  }

  lemma LongRead(digits: string, rest: string)
    requires |digits| == 4
    ensures var s := "\\u" + digits + rest;
      |s| >= 6 && s[0] == '\\' && s[1] == 'u' && s[2..6] == digits && s[6..] == rest
      && forall k :: 0 <= k < 4 ==> s[2 + k] == digits[k]
  {
  }

  /** A backslash, by the character after it. */
  lemma ShortStep(e: char, rest: string)
    requires e != 'u'
    ensures Unescape(['\\', e] + rest)
         == if IsShort(e) then Prepend([ShortCode(e) as char], Unescape(rest)) else Err(BAD_ESCAPE)
  {
    var s := ['\\', e] + rest;
    assert s[0] == '\\' && s[1] == e && s[2..] == rest;
    ShortMeaning(e);
  }

  lemma LongStep(digits: string, rest: string)
    requires |digits| == 4
    ensures Unescape("\\u" + digits + rest) == if IsPiece(Long(digits)) then Unescape(rest) else Err(UNICODE_DIGIT)
  {
    LongRead(digits, rest);
    HexIsHex(digits[0]);
    HexIsHex(digits[1]);
    HexIsHex(digits[2]);
    HexIsHex(digits[3]);
  }

  lemma Cut(rest: string)
    ensures Unescape("\\") == Err(EMPTY_ESCAPE)
    ensures |rest| < 4 ==> Unescape("\\u" + rest) == Err(UNICODE_SHORT)
  {
    var s := "\\u" + rest;
    assert |s| == 2 + |rest| && s[0] == '\\' && s[1] == 'u';
  }

  lemma PlainStep(c: char, rest: string)
    requires c != '\"' && c != '\\'
    ensures Unescape([c] + rest) == Prepend([c], Unescape(rest))
  {
    assert ([c] + rest)[0] == c && ([c] + rest)[1..] == rest;
  }

  lemma PieceDecodes(p: Piece, rest: string)
    requires IsPiece(p)
    ensures Unescape(Spelling(p) + rest) == Prepend(Saying(p), Unescape(rest))
  {
    PrependTwice([], [], Unescape(rest));
    match p
    case Plain(c) => PlainStep(c, rest);
    case Short(e) => ShortStep(e, rest);
    case Long(digits) => LongStep(digits, rest);
  }

  // ---- Whole strings ----------------------------------------------------------------------------

  lemma {:induction false} PiecesDecode(ps: seq<Piece>, rest: string)
    requires ArePieces(ps)
    ensures Unescape(Spellings(ps) + rest) == Prepend(Sayings(ps), Unescape(rest))
  {
    if ps == [] {
      assert "" + rest == rest;
      PrependTwice([], [], Unescape(rest));
    } else {
      PiecesDecode(ps[1..], rest);
      assert Spellings(ps) + rest == Spelling(ps[0]) + (Spellings(ps[1..]) + rest);
      PieceDecodes(ps[0], Spellings(ps[1..]) + rest);
      PrependTwice(Saying(ps[0]), Sayings(ps[1..]), Unescape(rest));
    }
  }

  /** What is not yet decoded, by how it begins. */
  lemma Shape(s: string)
    requires !Stops(s)
    ensures s[0] != '\\' ==> s == [s[0]] + s[1..]
    ensures s[0] == '\\' ==>
      || s == "\\"
      || (|s| > 1 && s[1] != 'u' && s == ['\\', s[1]] + s[2..])
      || (|s| > 1 && s[1] == 'u' && |s| < 6 && s == "\\u" + s[2..])
      || (|s| >= 6 && s[1] == 'u' && s == "\\u" + s[2..6] + s[6..])
  {
  }

  /** The piece at the front of what decodes. */
  lemma FrontPiece(s: string) returns (p: Piece, rest: string)
    requires Unescape(s).Ok? && !Stops(s)
    ensures IsPiece(p) && s == Spelling(p) + rest && |rest| < |s| && Unescape(rest).Ok?
  {
    Shape(s);
    if s[0] != '\\' {
      p, rest := Plain(s[0]), s[1..];
      PlainStep(s[0], rest);
    } else {
      p, rest := EscapeAtFront(s);
    }
  }

  lemma EscapeAtFront(s: string) returns (p: Piece, rest: string)
    requires Unescape(s).Ok? && s != "" && s[0] == '\\'
    ensures IsPiece(p) && s == Spelling(p) + rest && |rest| < |s| && Unescape(rest).Ok?
  {
    Shape(s);
    Cut(if |s| > 1 then s[2..] else "");
    if s[1] == 'u' {
      LongStep(s[2..6], s[6..]);
      p, rest := Long(s[2..6]), s[6..];
    } else {
      ShortStep(s[1], s[2..]);
      p, rest := Short(s[1]), s[2..];
    }
  }

  lemma OneMorePiece(p: Piece, more: seq<Piece>, rest: string)
    requires IsPiece(p) && ArePieces(more)
    ensures ArePieces([p] + more) && Spellings([p] + more) + rest == Spelling(p) + (Spellings(more) + rest)
  {
    assert ([p] + more)[1..] == more;
    assert Spelling(p) + Spellings(more) + rest == Spelling(p) + (Spellings(more) + rest);
  }

  lemma {:induction false} DecodedIsPieces(s: string) returns (ps: seq<Piece>, rest: string)
    requires Unescape(s).Ok?
    ensures ArePieces(ps) && s == Spellings(ps) + rest && Stops(rest)
    decreases |s|
  {
    ps, rest := [], s;
    if Stops(s) {
      assert Spellings([]) + s == s;
    } else {
      var p, left := FrontPiece(s);
      ps, rest := DecodedIsPieces(left);
      OneMorePiece(p, ps, rest);
      ps := [p] + ps;
    }
  }

  /** What a string decodes to, and when it decodes at all: exactly when it is a run of pieces, up to its
      end or an unescaped quote; and then to what the pieces say. */
  lemma DecodesIffPieces(s: string, r: string)
    ensures Unescape(s) == Ok(r) <==>
      exists ps :: ArePieces(ps) && Spellings(ps) <= s && Stops(s[|Spellings(ps)|..]) && Sayings(ps) == r
  {
    if Unescape(s) == Ok(r) {
      var ps, rest := DecodedIsPieces(s);
      assert Spellings(ps) <= s && s[|Spellings(ps)|..] == rest;
      PiecesDecode(ps, rest);
      PrependTwice(Sayings(ps), [], Unescape(rest));
    }
    forall ps | ArePieces(ps) && Spellings(ps) <= s && Stops(s[|Spellings(ps)|..])
      ensures Unescape(s) == Ok(Sayings(ps))
    {
      var rest := s[|Spellings(ps)|..];
      assert s == Spellings(ps) + rest;
      PiecesDecode(ps, rest);
      PrependTwice(Sayings(ps), [], Unescape(rest));
    }
  }

  /** After any pieces, a backslash at the end, before a character that is no escape, or before a `u`
      without four hexadecimal digits, is an error, and which. */
  lemma BadEscapes(ps: seq<Piece>, e: char, digits: string, rest: string)
    requires ArePieces(ps)
    ensures Unescape(Spellings(ps) + "\\") == Err(EMPTY_ESCAPE)
    ensures !IsShort(e) && e != 'u' ==> Unescape(Spellings(ps) + (['\\', e] + rest)) == Err(BAD_ESCAPE)
    ensures |rest| < 4 ==> Unescape(Spellings(ps) + ("\\u" + rest)) == Err(UNICODE_SHORT)
    ensures |digits| == 4 && (exists k :: 0 <= k < 4 && !HexDigit(digits[k])) ==>
      Unescape(Spellings(ps) + ("\\u" + digits + rest)) == Err(UNICODE_DIGIT)
  {
    Cut(rest);
    PiecesDecode(ps, "\\");
    PiecesDecode(ps, "\\u" + rest);
    if e != 'u' {
      ShortStep(e, rest);
      PiecesDecode(ps, ['\\', e] + rest);
    }
    if |digits| == 4 {
      LongStep(digits, rest);
      PiecesDecode(ps, "\\u" + digits + rest);
    }
  }

  // ---- What the writers escape --------------------------------------------------------------------

  /** Quote, backslash and the five controls with a two-character escape of their own. */
  function Written(c: char): (p: Piece)
    ensures p.Short? ==> IsShort(p.e) && ShortCode(p.e) == c as int
    ensures p.Plain? <==> c as int !in {0x22, 0x5C, 8, 12, 10, 13, 9}
    ensures p.Plain? ==> p.c == c
    ensures !p.Long?
  {
    match c as int
    case 0x22 => Short('\"')
    case 0x5C => Short('\\')
    case 8 => Short('b')
    case 12 => Short('f')
    case 10 => Short('n')
    case 13 => Short('r')
    case 9 => Short('t')
    case _ => Plain(c)
  }

  /** Escaping spells every character by its piece, so each of those seven by its escape and every other
      as it is. */
  lemma {:induction false} EscapeSpells(s: string)
    ensures Escape(s) == Spellings(seq(|s|, k requires 0 <= k < |s| => Written(s[k])))
  {
    var ps := seq(|s|, k requires 0 <= k < |s| => Written(s[k]));
    if s != "" {
      EscapeSpells(s[1..]);
      assert ps[1..] == seq(|s[1..]|, k requires 0 <= k < |s[1..]| => Written(s[1..][k]));
      EscapedChar(s[0]);
    }
  }

  lemma EscapedChar(c: char)
    ensures EscapeChar(c) == Spelling(Written(c))
  {
  }
}
