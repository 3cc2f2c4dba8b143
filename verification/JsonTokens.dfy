/** What the tokens of a text are, by its characters: white space, punctuation, words, numbers and
    strings of RFC 8259, and the two kinds of comment. */
module JsonTokens {
  import opened Basics
  import opened JsonText
  import opened JsonLexer
  import opened JsonGrammar
  import opened JsonEscapes

  // ---- One token at the front ------------------------------------------------------------------

  lemma FrontToken(s: string, t: Token, rest: string)
    requires s != "" && !IsSpace(s[0]) && s == t.text + rest && Scan(s) == Scanned(t.kind, |t.text|)
    ensures Lex(s) == [t] + Lex(rest)
  {
    FrontScanned(s);
    assert s[..|t.text|] == t.text && s[|t.text|..] == rest;
  }

  /** Tab, line feed, carriage return and blank separate tokens; nothing else is passed over. */
  lemma Blanks(c: char, rest: string)
    ensures c as int in {9, 10, 13, 32} ==> Lex([c] + rest) == Lex(rest)
    ensures c as int !in {9, 10, 13, 32} ==> Lex([c] + rest) != [] && Lex([c] + rest)[0].text != ""
                                             && Lex([c] + rest)[0].text[0] == c
  {
    var s := [c] + rest;
    assert s[1..] == rest;
    if c as int in {9, 10, 13, 32} {
      LexAfterSpaces([c], rest);
    } else {
      FrontScanned(s);
    }
  }

  /** The six marks. */
  lemma Marks(c: char, rest: string)
    ensures c == '{' ==> Lex([c] + rest) == [Token(ObjectBegin, [c])] + Lex(rest)
    ensures c == '}' ==> Lex([c] + rest) == [Token(ObjectEnd, [c])] + Lex(rest)
    ensures c == '[' ==> Lex([c] + rest) == [Token(ArrayBegin, [c])] + Lex(rest)
    ensures c == ']' ==> Lex([c] + rest) == [Token(ArrayEnd, [c])] + Lex(rest)
    ensures c == ',' ==> Lex([c] + rest) == [Token(Comma, [c])] + Lex(rest)
    ensures c == ':' ==> Lex([c] + rest) == [Token(Colon, [c])] + Lex(rest)
  {
    if MarkKind(c) != ErrorTok {
      assert ([c] + rest)[0] == c;
      FrontToken([c] + rest, Token(MarkKind(c), [c]), rest);
    }
  }

  /** The three words, whatever follows them. */
  lemma Words(rest: string)
    ensures Lex("true" + rest) == [Token(TrueTok, "true")] + Lex(rest)
    ensures Lex("false" + rest) == [Token(FalseTok, "false")] + Lex(rest)
    ensures Lex("null" + rest) == [Token(NullTok, "null")] + Lex(rest)
  {
    Word("true", "rue", TrueTok, rest);
    Word("false", "alse", FalseTok, rest);
    Word("null", "ull", NullTok, rest);
  }

  lemma Word(word: string, tail: string, kind: TokenType, rest: string)
    requires word != "" && word[1..] == tail
    requires (word[0] == 't' && tail == "rue" && kind == TrueTok)
             || (word[0] == 'f' && tail == "alse" && kind == FalseTok)
             || (word[0] == 'n' && tail == "ull" && kind == NullTok)
    ensures Lex(word + rest) == [Token(kind, word)] + Lex(rest)
  {
    assert (word + rest)[0] == word[0] && (word + rest)[1..] == tail + rest;
    assert tail <= tail + rest;
    FrontToken(word + rest, Token(kind, word), rest);
  }

  /** A NUL ends the stream; any other character that begins none of these tokens is an error. */
  lemma Others(c: char, rest: string)
    ensures c as int == 0 ==> Lex([c] + rest) == [Token(EndTok, [c])] + Lex(rest)
    ensures c as int != 0 && !IsSpace(c) && c !in "{}[],:\"/-0123456789tfn" ==>
      Lex([c] + rest) == [Token(ErrorTok, [c])] + Lex(rest)
  {
    if c as int == 0 {
      FrontToken([c] + rest, Token(EndTok, [c]), rest);
    } else if !IsSpace(c) && c !in "{}[],:\"/-0123456789tfn" {
      NoToken(c);
      FrontToken([c] + rest, Token(ErrorTok, [c]), rest);
    }
  }

  lemma NoToken(c: char)
    requires c !in "{}[],:\"/-0123456789tfn"
    ensures MarkKind(c) == ErrorTok && c != '\"' && c != '/' && c != '-' && !IsDigit(c)
    ensures c != 't' && c != 'f' && c != 'n'
  {
    var all := "{}[],:\"/-0123456789tfn";
    assert all[0] == '{' && all[1] == '}' && all[2] == '[' && all[3] == ']' && all[4] == ',' && all[5] == ':';
    assert all[6] == '\"' && all[7] == '/' && all[8] == '-' && all[9] == '0' && all[10] == '1' && all[11] == '2';
    assert all[12] == '3' && all[13] == '4' && all[14] == '5' && all[15] == '6' && all[16] == '7' && all[17] == '8';
    assert all[18] == '9' && all[19] == 't' && all[20] == 'f' && all[21] == 'n';
  }

  // ---- Numbers and strings ---------------------------------------------------------------------------

  /** `0` to `9`, point, plus, minus, `e` and `E`. */
  predicate NumberCode(c: char) {
    0x30 <= c as int <= 0x39 || c as int in {0x2E, 0x2B, 0x2D, 0x65, 0x45}
  }

  lemma {:induction false} NumberRun(run: string, rest: string)
    requires (forall k :: 0 <= k < |run| ==> NumberCode(run[k])) && (rest != "" ==> !NumberCode(rest[0]))
    ensures NumberLen(run + rest) == |run|
  {
    if run == "" {
      assert run + rest == rest;
    } else {
      assert (run + rest)[1..] == run[1..] + rest;
      NumberRun(run[1..], rest);
    }
  }

  lemma NumberScans(first: char, run: string, rest: string)
    requires 0x30 <= first as int <= 0x39 || first as int == 0x2D
    requires (forall k :: 0 <= k < |run| ==> NumberCode(run[k])) && (rest != "" ==> !NumberCode(rest[0]))
    ensures var s := [first] + run + rest;
      s[0] == first && !IsSpace(first) && Scan(s) == Scanned(NumberTok, 1 + |run|)
  {
    var s := [first] + run + rest;
    assert s[0] == first && s[1..] == run + rest;
    NumberRun(run, rest);
  }

  /** A number token is a digit or a minus sign and every such character after it. */
  lemma Numbers(first: char, run: string, rest: string)
    requires 0x30 <= first as int <= 0x39 || first as int == 0x2D
    requires (forall k :: 0 <= k < |run| ==> NumberCode(run[k])) && (rest != "" ==> !NumberCode(rest[0]))
    ensures Lex([first] + run + rest) == [Token(NumberTok, [first] + run)] + Lex(rest)
  {
    NumberScans(first, run, rest);
    FrontToken([first] + run + rest, Token(NumberTok, [first] + run), rest);
  }

  lemma PieceScans(p: Piece, rest: string)
    requires IsPiece(p)
    ensures StringClosed(Spelling(p) + rest) == StringClosed(rest)
    ensures StringLen(Spelling(p) + rest) == |Spelling(p)| + StringLen(rest)
  {
    match p
    case Plain(c) => PlainScans(c, rest);
    case Short(e) => BackslashScans(e, rest);
    case Long(digits) =>
      var d0, d1, d2, d3 := digits[0], digits[1], digits[2], digits[3];
      PlainScans(d3, rest);
      PlainScans(d2, [d3] + rest);
      PlainScans(d1, [d2] + ([d3] + rest));
      PlainScans(d0, [d1] + ([d2] + ([d3] + rest)));
      BackslashScans('u', [d0] + ([d1] + ([d2] + ([d3] + rest))));
      assert digits == [d0, d1, d2, d3];
      assert "\\u" + digits + rest == ['\\', 'u'] + ([d0] + ([d1] + ([d2] + ([d3] + rest))));
  }

  lemma PlainScans(c: char, rest: string)
    requires c != '\"' && c != '\\'
    ensures StringClosed([c] + rest) == StringClosed(rest) && StringLen([c] + rest) == 1 + StringLen(rest)
  {
    assert ([c] + rest)[0] == c && ([c] + rest)[1..] == rest;
  }

  lemma BackslashScans(e: char, rest: string)
    ensures StringClosed(['\\', e] + rest) == StringClosed(rest) && StringLen(['\\', e] + rest) == 2 + StringLen(rest)
  {
    assert (['\\', e] + rest)[0] == '\\' && (['\\', e] + rest)[2..] == rest;
  }

  lemma {:induction false} PiecesScan(ps: seq<Piece>, rest: string)
    requires ArePieces(ps)
    ensures StringClosed(Spellings(ps) + "\"" + rest) && StringLen(Spellings(ps) + "\"" + rest) == |Spellings(ps)| + 1
  {
    if ps == [] {
      assert (Spellings(ps) + "\"" + rest)[0] == '\"';
    } else {
      PiecesScan(ps[1..], rest);
      PieceScans(ps[0], Spellings(ps[1..]) + "\"" + rest);
      assert Spellings(ps) + "\"" + rest == Spelling(ps[0]) + (Spellings(ps[1..]) + "\"" + rest);
    }
  }

  lemma StringScans(ps: seq<Piece>, rest: string)
    requires ArePieces(ps)
    ensures var s := "\"" + Spellings(ps) + "\"" + rest;
      s[0] == '\"' && Scan(s) == Scanned(StringTok, |Spellings(ps)| + 2)
  {
    var s := "\"" + Spellings(ps) + "\"" + rest;
    assert s[0] == '\"' && s[1..] == Spellings(ps) + "\"" + rest;
    PiecesScan(ps, rest);
  }

  /** A quoted run of pieces is one string token, whatever follows, and decodes to what they say. */
  lemma Strings(ps: seq<Piece>, rest: string)
    requires ArePieces(ps)
    ensures var t := Token(StringTok, "\"" + Spellings(ps) + "\"");
      Lex(t.text + rest) == [t] + Lex(rest) && StringValue(t) == Ok(Sayings(ps))
  {
    var t := Token(StringTok, "\"" + Spellings(ps) + "\"");
    StringScans(ps, rest);
    FrontToken(t.text + rest, t, rest);
    TokenDecodes(ps, t);
  }

  lemma TokenDecodes(ps: seq<Piece>, t: Token)
    requires ArePieces(ps) && t.text == "\"" + Spellings(ps) + "\""
    ensures StringValue(t) == Ok(Sayings(ps))
  {
    assert t.text[1..|t.text| - 1] == Spellings(ps);
    SpelledDecodes(ps);
  }

  lemma SpelledDecodes(ps: seq<Piece>)
    requires ArePieces(ps)
    ensures Unescape(Spellings(ps)) == Ok(Sayings(ps))
  {
    PiecesDecode(ps, "");
    PrependTwice(Sayings(ps), [], Ok([]));
    assert Spellings(ps) + "" == Spellings(ps);
  }

  // ---- Comments ---------------------------------------------------------------------------------------

  predicate EndsAt(s: string, k: int) {
    0 <= k < |s| - 1 && s[k] == '*' && s[k + 1] == '/'
  }

  lemma {:induction false} CommentRun(body: string, rest: string)
    requires forall k :: 0 <= k < |body| ==> !EndsAt(body + "*/", k)
    ensures CCommentClosed(body + "*/" + rest) && CCommentLen(body + "*/" + rest) == |body| + 2
  {
    var s := body + "*/" + rest;
    if body == "" {
      assert s[0] == '*' && s[1] == '/';
    } else {
      assert s[1..] == body[1..] + "*/" + rest;
      assert !EndsAt(body + "*/", 0);
      assert (body + "*/")[0] == s[0] && (body + "*/")[1] == s[1];
      forall k | 0 <= k < |body[1..]| ensures !EndsAt(body[1..] + "*/", k) {
        assert !EndsAt(body + "*/", k + 1);
        assert (body + "*/")[1..] == body[1..] + "*/";
      }
      CommentRun(body[1..], rest);
    }
  }

  /** A comment between slash-star and the first star-slash after it is one token. */
  lemma BlockComments(body: string, rest: string)
    requires forall k :: 0 <= k < |body| ==> !EndsAt(body + "*/", k)
    ensures Lex("/*" + body + "*/" + rest) == [Token(CommentTok, "/*" + body + "*/")] + Lex(rest)
  {
    var s := "/*" + body + "*/" + rest;
    assert s[0] == '/' && s[1..][0] == '*' && s[1..][1..] == body + "*/" + rest;
    CommentRun(body, rest);
    FrontToken(s, Token(CommentTok, "/*" + body + "*/"), rest);
  }

  lemma {:induction false} Unclosed(body: string)
    requires forall k :: 0 <= k < |body| ==> !EndsAt(body, k)
    ensures !CCommentClosed(body) && CCommentLen(body) == |body|
  {
    if body != "" {
      assert !EndsAt(body, 0);
      forall k | 0 <= k < |body[1..]| ensures !EndsAt(body[1..], k) {
        assert !EndsAt(body, k + 1);
      }
      Unclosed(body[1..]);
    }
  }

  lemma OpenScans(body: string)
    requires forall k :: 0 <= k < |body| ==> !EndsAt(body, k)
    ensures Scan("/*" + body) == Scanned(ErrorTok, |body| + 2)
  {
    var s := "/*" + body;
    assert s[0] == '/' && s[1..][0] == '*' && s[1..][1..] == body;
    Unclosed(body);
  }

  /** One that is not closed is one error token. */
  lemma OpenComments(body: string)
    requires forall k :: 0 <= k < |body| ==> !EndsAt(body, k)
    ensures Lex("/*" + body) == [Token(ErrorTok, "/*" + body)]
  {
    OpenScans(body);
    FrontToken("/*" + body, Token(ErrorTok, "/*" + body), "");
  }

  predicate NoLineEnd(s: string) {
    forall k :: 0 <= k < |s| ==> s[k] as int != 10 && s[k] as int != 13
  }

  lemma {:induction false} LineRun(line: string, rest: string)
    requires NoLineEnd(line) && (rest == "" || rest[0] as int == 10 || rest[0] as int == 13)
    ensures CppCommentLen(line + rest) == |line| + if rest == "" then 0 else 1
  {
    if line == "" {
      assert line + rest == rest;
    } else {
      assert (line + rest)[1..] == line[1..] + rest;
      LineRun(line[1..], rest);
    }
  }

  /** A comment after two slashes runs through its line end, or to the end of the text. */
  lemma LineComments(line: string, end: char, rest: string)
    requires NoLineEnd(line)
    ensures end as int == 10 || end as int == 13 ==>
      Lex("//" + line + [end] + rest) == [Token(CommentTok, "//" + line + [end])] + Lex(rest)
    ensures Lex("//" + line) == [Token(CommentTok, "//" + line)]
  {
    var s := "//" + line;
    assert s[0] == '/' && s[1..][0] == '/' && s[1..][1..] == line == line + "";
    LineRun(line, "");
    FrontToken(s, Token(CommentTok, s), "");
    if end as int == 10 || end as int == 13 {
      var u := "//" + line + [end] + rest;
      assert u[0] == '/' && u[1..][0] == '/' && u[1..][1..] == line + ([end] + rest);
      LineRun(line, [end] + rest);
      FrontToken(u, Token(CommentTok, "//" + line + [end]), rest);
    }
  }
}
