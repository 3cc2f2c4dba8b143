/** The tokenizer of depend/json/json_reader.cpp, as a function of the characters left to read. */
module JsonLexer {
  import opened Basics
  import opened JsonText

  datatype TokenType =
    | ObjectBegin | ObjectEnd | ArrayBegin | ArrayEnd
    | StringTok | NumberTok | TrueTok | FalseTok | NullTok
    | Comma | Colon | CommentTok | ErrorTok | EndTok

  /** A token and its characters, `[start_, end_)`. */
  datatype Token = Token(kind: TokenType, text: string)

  predicate IsSpace(c: char) {
    c == ' ' || c == '\t' || c == '\r' || c == '\n'
  }

  predicate AllSpaces(s: string) {
    forall k :: 0 <= k < |s| ==> IsSpace(s[k])
  }

  /** Each function below counts the characters one scanning loop consumes. */
  function SpaceLen(s: string): (n: nat)
    ensures n <= |s| && (n < |s| ==> !IsSpace(s[n]))
  {
    if s == [] || !IsSpace(s[0]) then 0 else 1 + SpaceLen(s[1..])
  }

  function NumberLen(s: string): (n: nat)
    ensures n <= |s|
    ensures forall k :: 0 <= k < n ==> NumChar(s[k])
  {
    if s == [] || !NumChar(s[0]) then 0 else 1 + NumberLen(s[1..])
  }

  /** From just after an opening quote to just after the closing one, or to the end. */
  function StringLen(s: string): (n: nat)
    ensures n <= |s|
  {
    if s == [] then 0
    else if s[0] == '\\' then (if |s| == 1 then 1 else 2 + StringLen(s[2..]))
    else if s[0] == '\"' then 1
    else 1 + StringLen(s[1..])
  }

  predicate StringClosed(s: string)
    ensures StringClosed(s) ==> StringLen(s) > 0 && s[StringLen(s) - 1] == '\"'
  {
    if s == [] then false
    else if s[0] == '\\' then |s| > 1 && StringClosed(s[2..])
    else s[0] == '\"' || StringClosed(s[1..])
  }

  /** From just after the opening of a C comment to just after its close, or to the end. */
  function CCommentLen(s: string): (n: nat)
    ensures n <= |s|
  {
    if s == [] then 0
    else if s[0] == '*' && |s| > 1 && s[1] == '/' then 2
    else 1 + CCommentLen(s[1..])
  }

  predicate CCommentClosed(s: string) {
    s != [] && ((s[0] == '*' && |s| > 1 && s[1] == '/') || CCommentClosed(s[1..]))
  }

  /** A C++ comment runs through its line end. */
  function CppCommentLen(s: string): (n: nat)
    ensures n <= |s|
  {
    if s == [] then 0
    else if s[0] == '\r' || s[0] == '\n' then 1
    else 1 + CppCommentLen(s[1..])
  }

  predicate StartsWith(s: string, p: string) {
    p <= s
  }

  datatype Scanned = Scanned(kind: TokenType, len: nat)

  /** The switch of `readToken` on a non-empty remainder that does not start with a space. */
  function Scan(s: string): (r: Scanned)
    requires s != []
    ensures 1 <= r.len <= |s|
    ensures r.kind == NumberTok ==> NumberLexeme(s[..r.len])
    ensures r.kind == StringTok ==> r.len >= 2 && s[r.len - 1] == '\"'
  {
    var c := s[0];
    var rest := s[1..];
    if c == '{' then Scanned(ObjectBegin, 1)
    else if c == '}' then Scanned(ObjectEnd, 1)
    else if c == '[' then Scanned(ArrayBegin, 1)
    else if c == ']' then Scanned(ArrayEnd, 1)
    else if c == '\"' then
      Scanned(if StringClosed(rest) then StringTok else ErrorTok, 1 + StringLen(rest))
    else if c == '/' then ScanComment(rest)
    else if IsDigit(c) || c == '-' then Scanned(NumberTok, 1 + NumberLen(rest))
    else if c == 't' then ScanWord(rest, "rue", TrueTok)
    else if c == 'f' then ScanWord(rest, "alse", FalseTok)
    else if c == 'n' then ScanWord(rest, "ull", NullTok)
    else if c == ',' then Scanned(Comma, 1)
    else if c == ':' then Scanned(Colon, 1)
    else if c == '\0' then Scanned(EndTok, 1)
    else Scanned(ErrorTok, 1)
  }

  /** `match`: consumes the rest of the word only when all of it is there. */
  function ScanWord(rest: string, word: string, kind: TokenType): (r: Scanned)
    requires kind != NumberTok && kind != StringTok
    ensures 1 <= r.len <= |rest| + 1 && r.kind != NumberTok && r.kind != StringTok
  {
    if StartsWith(rest, word) then Scanned(kind, 1 + |word|) else Scanned(ErrorTok, 1)
  }

  function ScanComment(rest: string): (r: Scanned)
    ensures 1 <= r.len <= |rest| + 1 && (r.kind.CommentTok? || r.kind.ErrorTok?)
  {
    if rest == [] then Scanned(ErrorTok, 1)
    else if rest[0] == '*' then
      Scanned(if CCommentClosed(rest[1..]) then CommentTok else ErrorTok, 2 + CCommentLen(rest[1..]))
    else if rest[0] == '/' then Scanned(CommentTok, 2 + CppCommentLen(rest[1..]))
    else Scanned(ErrorTok, 2)
  }

  /** The token at the front of a remainder that is not all spaces. */
  function FirstToken(s: string): (t: Token)
    requires SpaceLen(s) < |s|
  {
    var r := s[SpaceLen(s)..];
    Token(Scan(r).kind, r[..Scan(r).len])
  }

  /** What is left once `readToken` has consumed it. */
  function AfterFirst(s: string): (rest: string)
    requires SpaceLen(s) < |s|
    ensures |rest| < |s|
  {
    s[SpaceLen(s) + Scan(s[SpaceLen(s)..]).len..]
  }

  /** Every token that repeated calls of `readToken` deliver before the document runs out. */
  function Lex(s: string): seq<Token>
    decreases |s|
  {
    if SpaceLen(s) == |s| then [] else [FirstToken(s)] + Lex(AfterFirst(s))
  }

  /** `text` lexes to `ts`. Stated so that the solver unfolds `Lex` only where it is mentioned. */
  ghost predicate LexesTo(text: string, ts: seq<Token>) {
    forall s {:trigger Lex(s)} :: s == text ==> Lex(s) == ts
  }

  /** What the decoders rely on. */
  predicate WellLexed(t: Token) {
    && (t.kind == NumberTok ==> NumberLexeme(t.text))
    && (t.kind == StringTok ==> |t.text| >= 2)
  }

  // ---- What the cursor sees -----------------------------------------------------------

  lemma Cut(whole: string, k: nat, document: string, start: nat, n: nat)
    requires k <= |whole| && start + n <= |document| && whole[k..] == document[start..]
    ensures whole[k..][..n] == document[start..start + n]
    ensures k + n <= |whole| && whole[k + n..] == document[start + n..]
  {
    assert |whole| - k == |document| - start;
    assert whole[k + n..] == whole[k..][n..];
  }

  /** The front token and what follows, by what is scanned after the spaces. */
  lemma ScannedFront(whole: string, left: string)
    requires SpaceLen(whole) < |whole| && left == whole[SpaceLen(whole)..]
    ensures FirstToken(whole) == Token(Scan(left).kind, left[..Scan(left).len])
    ensures AfterFirst(whole) == left[Scan(left).len..]
  {
  }

  /** What is in front of the cursor is what lies in the document there. */
  lemma FrontCut(front: Token, after: string, left: string, sc: Scanned, document: string, start: nat, end: nat)
    requires start <= end <= |document| && left == document[start..] && end == start + sc.len
    requires front == Token(sc.kind, left[..sc.len]) && after == left[sc.len..]
    ensures front == Token(sc.kind, document[start..end]) && after == document[end..]
  {
  }

  /** A token read at a cursor: `document[start..end]` is the front token of `whole`. */
  lemma TokenRead(whole: string, left: string, sc: Scanned, document: string, start: nat, end: nat)
    requires SpaceLen(whole) < |whole| && left == whole[SpaceLen(whole)..] && Scan(left) == sc
    requires start <= end <= |document| && left == document[start..] && end == start + sc.len
    ensures FirstToken(whole) == Token(sc.kind, document[start..end])
    ensures AfterFirst(whole) == document[end..]
  {
    var front, after := FirstToken(whole), AfterFirst(whole);
    ScannedFront(whole, left);
    FrontCut(front, after, left, sc, document, start, end);
  }

  lemma TokensWellLexed(s: string)
    requires SpaceLen(s) < |s|
    ensures WellLexed(FirstToken(s))
  {
  }

  /** Skipping the spaces in front leaves the tokens. */
  lemma SpacesSkipped(before: string, after: string)
    requires after == before[SpaceLen(before)..]
    ensures Lex(after) == Lex(before)
  {
    if after != [] {
      FrontScanned(after);
      var n := Scan(after).len;
      Cut(before, SpaceLen(before), after, 0, n);
      assert FirstToken(before) == Token(Scan(after).kind, after[..n]);
      assert AfterFirst(before) == after[n..];
    }
  }

  lemma FrontScanned(s: string)
    requires s != [] && !IsSpace(s[0])
    ensures SpaceLen(s) == 0
    ensures FirstToken(s) == Token(Scan(s).kind, s[..Scan(s).len])
    ensures AfterFirst(s) == s[Scan(s).len..]
  {
    assert s[0..] == s;
  }

  /** The next character decides for a closing bracket. */
  lemma BracketAhead(s: string)
    requires s != [] && !IsSpace(s[0])
    ensures Lex(s) != [] && (Lex(s)[0].kind.ArrayEnd? <==> s[0] == ']')
  {
    FrontScanned(s);
    BracketScans(s);
  }

  lemma BracketScans(s: string)
    requires s != []
    ensures Scan(s).kind.ArrayEnd? <==> s[0] == ']'
  {
  }

  // ---- Lexing a text made of pieces --------------------------------------------------

  /** Tokens whose end does not depend on what follows them (a number also needs a seam). */
  predicate Settled(t: Token) {
    !t.kind.CommentTok? && !t.kind.ErrorTok? && !t.kind.EndTok?
  }

  predicate AllSettled(ts: seq<Token>) {
    forall k :: 0 <= k < |ts| ==> Settled(ts[k])
  }

  /** No number can run across the boundary between `a` and `b`. */
  predicate Seam(a: string, b: string) {
    a == [] || b == [] || !NumChar(a[|a| - 1]) || !NumChar(b[0])
  }

  lemma {:induction false} SpaceAppend(a: string, b: string)
    ensures SpaceLen(a) < |a| ==> SpaceLen(a + b) == SpaceLen(a)
    ensures SpaceLen(a) == |a| ==> SpaceLen(a + b) == |a| + SpaceLen(b)
  {
    if a == [] {
      assert a + b == b;
    } else {
      SpaceAppend(a[1..], b);
      assert (a + b)[1..] == a[1..] + b;
    }
  }

  lemma {:induction false} NumberAppend(a: string, b: string)
    requires Seam(a, b)
    requires a != []
    ensures NumberLen(a + b) == NumberLen(a)
  {
    assert (a + b)[1..] == a[1..] + b;
    if a[1..] != [] {
      NumberAppend(a[1..], b);
    } else if b != [] {
      assert (a[1..] + b)[0] == b[0];
    }
  }

  lemma {:induction false} StringAppend(a: string, b: string)
    requires StringClosed(a)
    ensures StringClosed(a + b) && StringLen(a + b) == StringLen(a)
  {
    if a[0] == '\\' {
      StringAppend(a[2..], b);
      assert (a + b)[2..] == a[2..] + b;
    } else if a[0] != '\"' {
      StringAppend(a[1..], b);
      assert (a + b)[1..] == a[1..] + b;
    }
  }

  lemma ScanAppend(a: string, b: string)
    requires a != [] && Seam(a, b)
    requires Settled(Token(Scan(a).kind, a))
    ensures Scan(a + b) == Scan(a)
  {
    assert (a + b)[1..] == a[1..] + b;
    if a[0] == '\"' {
      StringAppend(a[1..], b);
    } else if IsDigit(a[0]) || a[0] == '-' {
      if a[1..] != [] {
        NumberAppend(a[1..], b);
      } else if b != [] {
        assert a[1..] + b == b;
      }
    }
  }

  /** Lexing distributes over a seam. */
  lemma {:induction false} LexAppend(a: string, b: string)
    requires AllSettled(Lex(a)) && Seam(a, b)
    ensures Lex(a + b) == Lex(a) + Lex(b)
    decreases |a|
  {
    if SpaceLen(a) == |a| {
      LexAfterSpaces(a, b);
    } else {
      var rest := AfterFirst(a);
      SettledParts(FirstToken(a), Lex(rest));
      FirstAppend(a, b);
      SeamOfSuffix(a, b, |a| - |rest|);
      LexAppend(rest, b);
      Associate([FirstToken(a)], Lex(rest), Lex(b));
    }
  }

  lemma SettledParts(t: Token, ts: seq<Token>)
    requires AllSettled([t] + ts)
    ensures Settled(t) && AllSettled(ts)
  {
    assert ([t] + ts)[0] == t;
    assert forall j :: 0 <= j < |ts| ==> ts[j] == ([t] + ts)[j + 1];
  }

  lemma Associate<T>(a: seq<T>, b: seq<T>, c: seq<T>)
    ensures a + (b + c) == a + b + c
  {
  }

  lemma FirstAppend(a: string, b: string)
    requires SpaceLen(a) < |a| && Settled(FirstToken(a)) && Seam(a, b)
    ensures SpaceLen(a + b) < |a + b|
    ensures FirstToken(a + b) == FirstToken(a)
    ensures AfterFirst(a + b) == AfterFirst(a) + b
  {
    var k := SpaceLen(a);
    var r := a[k..];
    SpaceAppend(a, b);
    SeamOfSuffix(a, b, k);
    ScanAppend(r, b);
    FirstParts(a, b, k, Scan(r));
  }

  /** The slicing step of `FirstAppend`, with the scanner's answers as plain numbers. */
  lemma FirstParts(a: string, b: string, k: nat, sc: Scanned)
    requires k < |a| && k + sc.len <= |a|
    requires SpaceLen(a) == k && SpaceLen(a + b) == k
    requires Scan(a[k..]) == sc && Scan(a[k..] + b) == sc
    ensures FirstToken(a + b) == FirstToken(a)
    ensures AfterFirst(a + b) == AfterFirst(a) + b
  {
    Slices(a, b, k, sc.len);
  }

  lemma LexAfterSpaces(a: string, b: string)
    requires SpaceLen(a) == |a|
    ensures Lex(a + b) == Lex(b)
  {
    SpaceAppend(a, b);
    if SpaceLen(b) < |b| {
      FirstAfterSpaces(a, b);
    }
  }

  lemma FirstAfterSpaces(a: string, b: string)
    requires SpaceLen(a) == |a| && SpaceLen(b) < |b|
    ensures SpaceLen(a + b) < |a + b|
    ensures FirstToken(a + b) == FirstToken(b) && AfterFirst(a + b) == AfterFirst(b)
  {
    var k := SpaceLen(b);
    SpaceAppend(a, b);
    Drops(a, b, k);
    Drops(a, b, k + Scan(b[k..]).len);
  }

  lemma SeamOfSuffix(a: string, b: string, k: nat)
    requires Seam(a, b) && k <= |a|
    ensures Seam(a[k..], b)
  {
  }

  lemma Slices(a: string, b: string, k: nat, n: nat)
    requires k + n <= |a|
    ensures (a + b)[k..] == a[k..] + b
    ensures (a[k..] + b)[..n] == a[k..][..n]
    ensures (a + b)[k + n..] == a[k + n..] + b
  {
  }

  lemma Drops(a: string, b: string, k: nat)
    requires k <= |b|
    ensures (a + b)[|a| + k..] == b[k..]
  {
  }

  lemma {:induction false} SpacesLex(s: string)
    requires AllSpaces(s)
    ensures SpaceLen(s) == |s| && Lex(s) == []
  {
    if s != [] {
      SpacesLex(s[1..]);
    }
  }

  // ---- The texts the writers emit ---------------------------------------------------------

  lemma OneToken(s: string, kind: TokenType)
    requires s != [] && !IsSpace(s[0]) && Scan(s) == Scanned(kind, |s|)
    ensures LexesTo(s, [Token(kind, s)])
  {
    assert s[0..] == s;
    assert s[..|s|] == s;
    assert s[|s|..] == [];
  }

  lemma {:induction false} NumberLexLen(s: string)
    requires forall k :: 0 <= k < |s| ==> NumChar(s[k])
    ensures NumberLen(s) == |s|
  {
    if s != [] {
      NumberLexLen(s[1..]);
    }
  }

  lemma NumberLexes(s: string)
    requires NumberLexeme(s)
    ensures LexesTo(s, [Token(NumberTok, s)])
  {
    NumberLexLen(s[1..]);
    OneToken(s, NumberTok);
  }

  lemma EscapeCharScans(c: char, rest: string)
    ensures StringClosed(EscapeChar(c) + rest) == StringClosed(rest)
    ensures StringLen(EscapeChar(c) + rest) == |EscapeChar(c)| + StringLen(rest)
  {
    var e := EscapeChar(c);
    assert (e + rest)[|e|..] == rest;
    if NeedsEscape(c) {
      assert |e| == 2 && (e + rest)[0] == '\\';
    } else {
      assert (e + rest)[0] == c;
    }
  }

  /** `readString` on an escaped text stops exactly at the closing quote. */
  lemma {:induction false} EscapeScans(s: string, suffix: string)
    ensures StringClosed(Escape(s) + "\"" + suffix)
    ensures StringLen(Escape(s) + "\"" + suffix) == |Escape(s)| + 1
  {
    if s == [] {
      assert (Escape(s) + "\"" + suffix)[0] == '\"';
    } else {
      EscapeScans(s[1..], suffix);
      var rest := Escape(s[1..]) + "\"" + suffix;
      EscapeCharScans(s[0], rest);
      assert Escape(s) + "\"" + suffix == EscapeChar(s[0]) + rest;
    }
  }

  /** The string codec in context: in front of any suffix, a quoted string is read as one
      token that ends at its closing quote, and the token decodes to the original. */
  lemma QuoteInContext(s: string, suffix: string)
    ensures Scan(Quote(s) + suffix) == Scanned(StringTok, |Quote(s)|)
    ensures (Quote(s) + suffix)[..|Quote(s)|] == Quote(s)
    ensures Unescape(Quote(s)[1..|Quote(s)| - 1]) == Ok(s)
  {
    var q := Quote(s) + suffix;
    assert q[1..] == Escape(s) + "\"" + suffix;
    EscapeScans(s, suffix);
    assert Quote(s)[1..|Quote(s)| - 1] == Escape(s);
    UnescapeEscape(s);
  }

  lemma QuoteLexes(s: string)
    ensures LexesTo(Quote(s), [Token(StringTok, Quote(s))])
  {
    QuoteInContext(s, "");
    assert Quote(s) + "" == Quote(s);
    OneToken(Quote(s), StringTok);
  }

  function MarkKind(c: char): TokenType {
    match c
    case '[' => ArrayBegin
    case ']' => ArrayEnd
    case '{' => ObjectBegin
    case '}' => ObjectEnd
    case ',' => Comma
    case ':' => Colon
    case _ => ErrorTok
  }

  lemma MarkLexes(s: string, kind: TokenType)
    requires |s| == 1 && MarkKind(s[0]) == kind && kind != ErrorTok
    ensures LexesTo(s, [Token(kind, s)])
  {
    OneToken(s, kind);
  }

  lemma WordLexes(b: bool)
    ensures LexesTo("null", [Token(NullTok, "null")])
    ensures b ==> LexesTo("true", [Token(TrueTok, "true")])
    ensures !b ==> LexesTo("false", [Token(FalseTok, "false")])
  {
    assert "null"[1..] == "ull" && "true"[1..] == "rue" && "false"[1..] == "alse";
    OneToken("null", NullTok);
    if b {
      OneToken("true", TrueTok);
    } else {
      OneToken("false", FalseTok);
    }
  }
}
