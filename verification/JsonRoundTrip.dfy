/** The tokens a value is written as, the compact text of `FastWriter`, and what the reader
    makes of them: the round trip. */
module JsonRoundTrip {
  import opened Basics
  import opened JsonValues
  import opened JsonText
  import opened JsonLexer
  import opened JsonGrammar

  // ---- Values as tokens --------------------------------------------------------------------

  /** What the writers can be given: a well-formed tree without null string pointers. */
  predicate Writable(v: Value)
    decreases v
  {
    WF(v) &&
    match v
    case Str(c) => c.Chars?
    case Arr(m) => WritableMap(m)
    case Obj(m) => WritableMap(m)
    case _ => true
  }

  predicate WritableMap(m: Entries)
    decreases m
  {
    m.Entry? ==> Writable(m.value) && WritableMap(m.rest)
  }

  /** `show` stands for `sprintf` with "%.10f" and the removal of trailing zeros. */
  ghost predicate ShowsNumbers(show: real -> string) {
    forall r {:trigger NumberLexeme(show(r))} :: NumberLexeme(show(r))
  }

  /** The array item at `next` when `m` holds the entries from there on, and the entries after it. */
  function ItemAt(m: Entries, next: int): Value
    requires m.Entry?
  {
    if m.key == Index(next) then m.value else Null
  }

  function ItemsAfter(m: Entries, next: int): Entries
    requires m.Entry?
  {
    if m.key == Index(next) then m.rest else m
  }

  /** How far the first entry lies ahead of `next`: the measure over the gaps of an array. */
  function Gap(m: Entries, next: int): nat {
    if m.Entry? && m.key.Index? && m.key.i >= next then m.key.i - next else 0
  }

  /** The text of a scalar. */
  function ScalarText(show: real -> string, v: Value): string {
    match v
    case Int(i) => IntText(i)
    case UInt(u) => IntText(u)
    case Real(r) => show(r)
    case Str(Chars(s)) => Quote(s)
    case Bool(b) => if b then "true" else "false"
    case _ => "null"
  }

  function ScalarKind(v: Value): TokenType {
    match v
    case Int(_) => NumberTok
    case UInt(_) => NumberTok
    case Real(_) => NumberTok
    case Str(Chars(_)) => StringTok
    case Bool(b) => if b then TrueTok else FalseTok
    case _ => NullTok
  }

  function Tokens(show: real -> string, v: Value): seq<Token>
    requires WF(v)
    decreases v, 0
  {
    match v
    case Arr(m) =>
      [Token(ArrayBegin, "[")] + (if m.End? then [] else ItemTokens(show, m, 0)) + [Token(ArrayEnd, "]")]
    case Obj(m) =>
      [Token(ObjectBegin, "{")] + (if m.End? then [] else MemberTokens(show, m)) + [Token(ObjectEnd, "}")]
    case _ => [Token(ScalarKind(v), ScalarText(show, v))]
  }

  function ItemTokens(show: real -> string, m: Entries, next: int): seq<Token>
    requires m.Entry? && WFItems(m, next)
    decreases m, Gap(m, next)
  {
    var after := ItemsAfter(m, next);
    (if m.key == Index(next) then Tokens(show, m.value) else [Token(NullTok, "null")])
    + (if after.End? then [] else [Token(Comma, ",")] + ItemTokens(show, after, next + 1))
  }

  function MemberTokens(show: real -> string, m: Entries): seq<Token>
    requires m.Entry? && WFMembers(m)
    decreases m, 0
  {
    [Token(StringTok, Quote(m.key.s)), Token(Colon, ":")] + Tokens(show, m.value)
    + (if m.rest.End? then [] else [Token(Comma, ",")] + MemberTokens(show, m.rest))
  }

  // ---- The compact text ------------------------------------------------------------------------

  /** What `FastWriter::writeValue` appends; `colon` is ":" or, for YAML, ": ". */
  function Compact(show: real -> string, colon: string, v: Value): string
    requires WF(v)
    decreases v, 0
  {
    match v
    case Arr(m) => "[" + (if m.End? then "" else CompactItems(show, colon, m, 0)) + "]"
    case Obj(m) => "{" + (if m.End? then "" else CompactMembers(show, colon, m)) + "}"
    case _ => ScalarText(show, v)
  }

  function CompactItems(show: real -> string, colon: string, m: Entries, next: int): string
    requires m.Entry? && WFItems(m, next)
    decreases m, Gap(m, next)
  {
    var after := ItemsAfter(m, next);
    (if m.key == Index(next) then Compact(show, colon, m.value) else "null")
    + (if after.End? then "" else "," + CompactItems(show, colon, after, next + 1))
  }

  function CompactMembers(show: real -> string, colon: string, m: Entries): string
    requires m.Entry? && WFMembers(m)
    decreases m, 0
  {
    Quote(m.key.s) + colon + Compact(show, colon, m.value)
    + (if m.rest.End? then "" else "," + CompactMembers(show, colon, m.rest))
  }

  // ---- The compact text lexes to the tokens --------------------------------------------------

  /** `text` lexes to `ts`, all of which end where they end whatever follows. */
  ghost predicate Lexes(text: string, ts: seq<Token>) {
    LexesTo(text, ts) && AllSettled(ts)
  }

  lemma Join(a: string, ta: seq<Token>, b: string, tb: seq<Token>)
    requires Lexes(a, ta) && Lexes(b, tb) && Seam(a, b)
    ensures Lexes(a + b, ta + tb)
  {
    assert Lex(a) == ta && Lex(b) == tb;
    LexAppend(a, b);
  }

  /** One piece of punctuation between two texts. */
  lemma JoinMark(a: string, ta: seq<Token>, mark: string, tm: seq<Token>, b: string, tb: seq<Token>)
    requires Lexes(a, ta) && Lexes(mark, tm) && Lexes(b, tb)
    requires mark != [] && !NumChar(mark[0]) && !NumChar(mark[|mark| - 1])
    ensures Lexes(a + (mark + b), ta + (tm + tb))
  {
    Join(mark, tm, b, tb);
    Join(a, ta, mark + b, tm + tb);
  }

  lemma MarksLex()
    ensures Lexes("[", [Token(ArrayBegin, "[")]) && Lexes("]", [Token(ArrayEnd, "]")])
    ensures Lexes("{", [Token(ObjectBegin, "{")]) && Lexes("}", [Token(ObjectEnd, "}")])
    ensures Lexes(",", [Token(Comma, ",")]) && Lexes(":", [Token(Colon, ":")])
  {
    MarkLexes("[", ArrayBegin);
    MarkLexes("]", ArrayEnd);
    MarkLexes("{", ObjectBegin);
    MarkLexes("}", ObjectEnd);
    MarkLexes(",", Comma);
    MarkLexes(":", Colon);
  }

  lemma ScalarLexes(show: real -> string, v: Value)
    requires ShowsNumbers(show) && Writable(v) && !v.Arr? && !v.Obj?
    ensures Lexes(ScalarText(show, v), [Token(ScalarKind(v), ScalarText(show, v))])
  {
    match v
    case Int(i) =>
      IntTextDecodes(_ => None, i);
      NumberLexes(IntText(i));
    case UInt(u) =>
      IntTextDecodes(_ => None, u);
      NumberLexes(IntText(u));
    case Real(r) => NumberLexes(show(r));
    case Str(c) => QuoteLexes(c.s);
    case Bool(b) => WordLexes(b);
    case Null => WordLexes(true);
  }

  /** A colon as the writers print it: the character with spaces around it. */
  ghost predicate IsColon(colon: string) {
    Lexes(colon, [Token(Colon, ":")]) && colon != [] && !NumChar(colon[0]) && !NumChar(colon[|colon| - 1])
  }

  lemma {:induction false} CompactLexes(show: real -> string, colon: string, v: Value)
    requires ShowsNumbers(show) && IsColon(colon) && Writable(v)
    ensures Lexes(Compact(show, colon, v), Tokens(show, v))
    decreases v, 0
  {
    MarksLex();
    if v.Arr? {
      if v.m.Entry? {
        CompactItemsLex(show, colon, v.m, 0);
        Join(CompactItems(show, colon, v.m, 0), ItemTokens(show, v.m, 0), "]", [Token(ArrayEnd, "]")]);
        Enclose("[", ArrayBegin, CompactItems(show, colon, v.m, 0), ItemTokens(show, v.m, 0), "]", ArrayEnd);
      } else {
        Enclose("[", ArrayBegin, "", [], "]", ArrayEnd);
      }
    } else if v.Obj? {
      if v.m.Entry? {
        CompactMembersLex(show, colon, v.m);
        Enclose("{", ObjectBegin, CompactMembers(show, colon, v.m), MemberTokens(show, v.m), "}", ObjectEnd);
      } else {
        Enclose("{", ObjectBegin, "", [], "}", ObjectEnd);
      }
    } else {
      ScalarLexes(show, v);
    }
  }

  lemma Enclose(open: string, ko: TokenType, text: string, ts: seq<Token>, close: string, kc: TokenType)
    requires Lexes(open, [Token(ko, open)]) && Lexes(close, [Token(kc, close)]) && Lexes(text, ts)
    requires |open| == |close| == 1 && !NumChar(open[0]) && !NumChar(close[0])
    ensures Lexes(open + text + close, [Token(ko, open)] + ts + [Token(kc, close)])
  {
    Join(open, [Token(ko, open)], text, ts);
    Join(open + text, [Token(ko, open)] + ts, close, [Token(kc, close)]);
  }

  lemma {:induction false} CompactItemsLex(show: real -> string, colon: string, m: Entries, next: int)
    requires ShowsNumbers(show) && IsColon(colon)
    requires m.Entry? && WFItems(m, next) && WritableMap(m)
    ensures Lexes(CompactItems(show, colon, m, next), ItemTokens(show, m, next))
    decreases m, Gap(m, next)
  {
    var after := ItemsAfter(m, next);
    var text := if m.key == Index(next) then Compact(show, colon, m.value) else "null";
    var ts := if m.key == Index(next) then Tokens(show, m.value) else [Token(NullTok, "null")];
    if m.key == Index(next) {
      CompactLexes(show, colon, m.value);
    } else {
      WordLexes(true);
    }
    if after.Entry? {
      MarksLex();
      CompactItemsLex(show, colon, after, next + 1);
      JoinMark(text, ts, ",", [Token(Comma, ",")],
               CompactItems(show, colon, after, next + 1), ItemTokens(show, after, next + 1));
    } else {
      assert text + "" == text && ts + [] == ts;
    }
  }

  lemma {:induction false} CompactMembersLex(show: real -> string, colon: string, m: Entries)
    requires ShowsNumbers(show) && IsColon(colon)
    requires m.Entry? && WFMembers(m) && WritableMap(m)
    ensures Lexes(CompactMembers(show, colon, m), MemberTokens(show, m))
    decreases m, 0
  {
    CompactLexes(show, colon, m.value);
    var text, ts := Compact(show, colon, m.value), Tokens(show, m.value);
    if m.rest.Entry? {
      MarksLex();
      CompactMembersLex(show, colon, m.rest);
      JoinMark(text, ts, ",", [Token(Comma, ",")], CompactMembers(show, colon, m.rest), MemberTokens(show, m.rest));
      NamedLexes(m.key.s, colon, text + ("," + CompactMembers(show, colon, m.rest)),
                 ts + ([Token(Comma, ",")] + MemberTokens(show, m.rest)));
      Associate(Quote(m.key.s) + colon, text, "," + CompactMembers(show, colon, m.rest));
      Associate([Token(StringTok, Quote(m.key.s)), Token(Colon, ":")], ts,
                [Token(Comma, ",")] + MemberTokens(show, m.rest));
    } else {
      NamedLexes(m.key.s, colon, text, ts);
      assert Quote(m.key.s) + colon + text + "" == Quote(m.key.s) + colon + text;
      assert [Token(StringTok, Quote(m.key.s)), Token(Colon, ":")] + ts + []
          == [Token(StringTok, Quote(m.key.s)), Token(Colon, ":")] + ts;
    }
  }

  /** A quoted name and a colon in front of a text. */
  lemma NamedLexes(name: string, colon: string, text: string, ts: seq<Token>)
    requires IsColon(colon) && Lexes(text, ts)
    ensures Lexes(Quote(name) + colon + text, [Token(StringTok, Quote(name)), Token(Colon, ":")] + ts)
  {
    var q, c := [Token(StringTok, Quote(name))], [Token(Colon, ":")];
    QuoteLexes(name);
    JoinMark(Quote(name), q, colon, c, text, ts);
    Associate(Quote(name), colon, text);
    Associate(q, c, ts);
    assert q + c == [Token(StringTok, Quote(name)), Token(Colon, ":")];
  }

  // ---- What the reader makes of a written value -------------------------------------------------

  function Append(m: Entries, n: Entries): Entries {
    match m
    case End => n
    case Entry(k, v, r) => Entry(k, v, Append(r, n))
  }

  /** The value decoded from the text of a number. */
  function Reread(scan: string -> Option<real>, text: string): Result<Value, string> {
    NumberValue(scan, Token(NumberTok, text))
  }

  /** Every number in the tree is written as a text that `sscanf` or the integer path accepts. */
  predicate Readable(scan: string -> Option<real>, show: real -> string, v: Value)
    decreases v
  {
    match v
    case Int(_) => Reread(scan, ScalarText(show, v)).Ok?
    case UInt(_) => Reread(scan, ScalarText(show, v)).Ok?
    case Real(_) => Reread(scan, ScalarText(show, v)).Ok?
    case Arr(m) => ReadableMap(scan, show, m)
    case Obj(m) => ReadableMap(scan, show, m)
    case _ => true
  }

  predicate ReadableMap(scan: string -> Option<real>, show: real -> string, m: Entries)
    decreases m
  {
    m.Entry? ==> Readable(scan, show, m.value) && ReadableMap(scan, show, m.rest)
  }

  /** The value read back: numbers as their text decodes, array gaps filled with null. */
  function Norm(scan: string -> Option<real>, show: real -> string, v: Value): Value
    requires WF(v) && Readable(scan, show, v)
    decreases v, 0
  {
    match v
    case Int(_) => Reread(scan, ScalarText(show, v)).value
    case UInt(_) => Reread(scan, ScalarText(show, v)).value
    case Real(_) => Reread(scan, ScalarText(show, v)).value
    case Arr(m) => Arr(NormItems(scan, show, m, 0))
    case Obj(m) => Obj(NormMembers(scan, show, m))
    case _ => v
  }

  function NormItems(scan: string -> Option<real>, show: real -> string, m: Entries, next: int): Entries
    requires WFItems(m, next) && ReadableMap(scan, show, m)
    decreases m, Gap(m, next)
  {
    if m.End? then End
    else
      var v := if m.key == Index(next) then Norm(scan, show, m.value) else Null;
      Entry(Index(next), v, NormItems(scan, show, ItemsAfter(m, next), next + 1))
  }

  function NormMembers(scan: string -> Option<real>, show: real -> string, m: Entries): Entries
    requires WFMembers(m) && ReadableMap(scan, show, m)
    decreases m, 0
  {
    match m
    case End => End
    case Entry(k, v, r) => Entry(k, Norm(scan, show, v), NormMembers(scan, show, r))
  }

  /** Every key of `m` lies before `k`. */
  predicate AllBelow(m: Entries, k: Key) {
    m.Entry? ==> KeyLess(m.key, k) && m.key != k && !KeyLess(k, m.key) && AllBelow(m.rest, k)
  }

  /** A key beyond all others gets its slot at the end of the map. */
  lemma {:induction false} FreshSlot(m: Entries, k: Key, v: Value)
    requires AllBelow(m, k)
    ensures Lookup(m, k).None?
    ensures Store(m, k, v) == Append(m, Entry(k, v, End))
    ensures Lookup(Append(m, Entry(k, v, End)), k) == Some(v)
    decreases m
  {
    if m.Entry? {
      FreshSlot(m.rest, k, v);
    }
  }

  lemma {:induction false} RefillSlot(m: Entries, k: Key, old_: Value, v: Value)
    requires AllBelow(m, k)
    ensures Store(Append(m, Entry(k, old_, End)), k, v) == Append(m, Entry(k, v, End))
    decreases m
  {
    if m.Entry? {
      RefillSlot(m.rest, k, old_, v);
    }
  }

  lemma {:induction false} AppendEntry(m: Entries, k: Key, v: Value, n: Entries)
    ensures Append(Append(m, Entry(k, v, End)), n) == Append(m, Entry(k, v, n))
    decreases m
  {
    if m.Entry? {
      AppendEntry(m.rest, k, v, n);
    }
  }

  lemma {:induction false} AppendEnd(m: Entries)
    ensures Append(m, End) == m
    decreases m
  {
    if m.Entry? {
      AppendEnd(m.rest);
    }
  }

  lemma {:induction false} BelowExtends(m: Entries, k: Key, v: Value, next: Key)
    requires AllBelow(m, k) && KeyLess(k, next) && Comparable(k, next)
    ensures AllBelow(Append(m, Entry(k, v, End)), next)
    decreases m
  {
    KeyOrder(k, next);
    if m.Entry? {
      KeyTransitive(m.key, k, next);
      assert Comparable(m.key, next) by {
        assert KeyLess(m.key, k);
      }
      KeyOrder(m.key, next);
      BelowExtends(m.rest, k, v, next);
    }
  }

  /** A token that is no comment is the one read first. */
  lemma FrontToken(t: Token, rest: seq<Token>)
    requires !t.kind.CommentTok?
    ensures Head([t] + rest) == t && Tail([t] + rest) == rest && DropComments([t] + rest) == [t] + rest
  {
  }

  lemma RereadNumber(scan: string -> Option<real>, text: string, rest: seq<Token>, cur: Value)
    ensures var r := PValue(scan, [Token(NumberTok, text)] + rest, cur);
      && (r.ok <==> Reread(scan, text).Ok?)
      && (r.ok ==> r == Parsed(true, Reread(scan, text).value, rest, []))
  {
    FrontToken(Token(NumberTok, text), rest);
  }

  lemma RereadString(scan: string -> Option<real>, s: string, rest: seq<Token>, cur: Value)
    requires '\0' !in s
    ensures PValue(scan, [Token(StringTok, Quote(s))] + rest, cur) == Parsed(true, Str(Chars(s)), rest, [])
  {
    FrontToken(Token(StringTok, Quote(s)), rest);
    QuoteInContext(s, "");
  }

  /** Numbers, strings and words read back as their token decodes. */
  lemma RereadScalar(scan: string -> Option<real>, show: real -> string, v: Value, rest: seq<Token>, cur: Value)
    requires Writable(v) && !v.Arr? && !v.Obj?
    ensures PValue(scan, Tokens(show, v) + rest, cur).ok <==> Readable(scan, show, v)
    ensures Readable(scan, show, v) ==>
      PValue(scan, Tokens(show, v) + rest, cur) == Parsed(true, Norm(scan, show, v), rest, [])
  {
    if v.Str? {
      RereadString(scan, v.c.s, rest, cur);
    } else if v.Int? || v.UInt? || v.Real? {
      RereadNumber(scan, ScalarText(show, v), rest, cur);
    } else {
      FrontToken(Token(ScalarKind(v), ScalarText(show, v)), rest);
    }
  }

  /** The token grammar on the tokens of a written value: it consumes exactly them and yields
      the normal form, or fails when some number does not read back at all. */
  lemma {:induction false} RereadValue(
    scan: string -> Option<real>, show: real -> string, v: Value, rest: seq<Token>, cur: Value)
    requires Writable(v)
    ensures PValue(scan, Tokens(show, v) + rest, cur).ok <==> Readable(scan, show, v)
    ensures Readable(scan, show, v) ==>
      PValue(scan, Tokens(show, v) + rest, cur) == Parsed(true, Norm(scan, show, v), rest, [])
    decreases v, 0
  {
    if v.Arr? {
      RereadArray(scan, show, v.m, rest, cur);
    } else if v.Obj? {
      if v.m.Entry? {
        RereadObject(scan, show, v.m, rest, cur);
      } else {
        EmptyObject(scan, show, rest, cur);
      }
    } else {
      RereadScalar(scan, show, v, rest, cur);
    }
  }

  lemma {:induction false} RereadArray(
    scan: string -> Option<real>, show: real -> string, m: Entries, rest: seq<Token>, cur: Value)
    requires WFItems(m, 0) && WritableMap(m)
    ensures var r := PValue(scan, Tokens(show, Arr(m)) + rest, cur);
      && (r.ok <==> ReadableMap(scan, show, m))
      && (r.ok ==> r == Parsed(true, Arr(NormItems(scan, show, m, 0)), rest, []))
    decreases m, Gap(m, 0) + 1
  {
    if m.End? {
      EmptyArray(scan, show, rest, cur);
    } else {
      var ts := ItemTokens(show, m, 0) + ([Token(ArrayEnd, "]")] + rest);
      Regroup(Token(ArrayBegin, "["), ItemTokens(show, m, 0), Token(ArrayEnd, "]"), rest);
      ItemsStart(show, m, 0, [Token(ArrayEnd, "]")] + rest);
      ArrayStart(scan, ts, cur);
      RereadItems(scan, show, m, 0, End, rest, ts);
    }
  }

  lemma ArrayStart(scan: string -> Option<real>, more: seq<Token>, cur: Value)
    requires !Head(more).kind.ArrayEnd?
    ensures PValue(scan, [Token(ArrayBegin, "[")] + more, cur) == PItems(scan, more, 0, End)
  {
    FrontToken(Token(ArrayBegin, "["), more);
  }

  lemma EmptyArray(scan: string -> Option<real>, show: real -> string, rest: seq<Token>, cur: Value)
    ensures PValue(scan, Tokens(show, Arr(End)) + rest, cur) == Parsed(true, Arr(End), rest, [])
  {
    Regroup(Token(ArrayBegin, "["), [], Token(ArrayEnd, "]"), rest);
    FrontToken(Token(ArrayBegin, "["), [Token(ArrayEnd, "]")] + rest);
    FrontToken(Token(ArrayEnd, "]"), rest);
  }

  lemma {:induction false} RereadObject(
    scan: string -> Option<real>, show: real -> string, m: Entries, rest: seq<Token>, cur: Value)
    requires m.Entry? && WFMembers(m) && WritableMap(m)
    ensures var r := PValue(scan, Tokens(show, Obj(m)) + rest, cur);
      && (r.ok <==> ReadableMap(scan, show, m))
      && (r.ok ==> r == Parsed(true, Obj(NormMembers(scan, show, m)), rest, []))
    decreases m, 1
  {
    var close := [Token(ObjectEnd, "}")] + rest;
    Regroup(Token(ObjectBegin, "{"), MemberTokens(show, m), Token(ObjectEnd, "}"), rest);
    ObjectStart(scan, MemberTokens(show, m) + close, cur);
    RereadMembers(scan, show, m, "", End, rest);
  }

  lemma ObjectStart(scan: string -> Option<real>, more: seq<Token>, cur: Value)
    ensures PValue(scan, [Token(ObjectBegin, "{")] + more, cur) == PMembers(scan, more, "", End)
  {
    FrontToken(Token(ObjectBegin, "{"), more);
  }

  lemma EmptyObject(scan: string -> Option<real>, show: real -> string, rest: seq<Token>, cur: Value)
    ensures PValue(scan, Tokens(show, Obj(End)) + rest, cur) == Parsed(true, Obj(End), rest, [])
  {
    var close := [Token(ObjectEnd, "}")] + rest;
    Regroup(Token(ObjectBegin, "{"), [], Token(ObjectEnd, "}"), rest);
    ObjectStart(scan, close, cur);
    FrontToken(Token(ObjectEnd, "}"), rest);
  }

  lemma Regroup(open: Token, inner: seq<Token>, close: Token, rest: seq<Token>)
    ensures [open] + inner + [close] + rest == [open] + (inner + ([close] + rest))
    ensures inner == [] ==> inner + ([close] + rest) == [close] + rest
  {
  }

  /** No written value starts with a closing bracket. */
  lemma ItemsStart(show: real -> string, m: Entries, next: int, more: seq<Token>)
    requires m.Entry? && WFItems(m, next)
    ensures !Head(ItemTokens(show, m, next) + more).kind.ArrayEnd?
  {
  }

  /** An item that reads back is stored at its index; the token after it decides. */
  lemma ItemValue(scan: string -> Option<real>, index: int, ts: seq<Token>, acc: Entries, n: Value, left: seq<Token>)
    requires AllBelow(acc, Index(index))
    requires PValue(scan, ts, Null) == Parsed(true, n, left, []) && left != []
    ensures var m := Append(acc, Entry(Index(index), n, End));
      var r := PItems(scan, ts, index, acc);
      && (left[0].kind.ArrayEnd? ==> r == Parsed(true, Arr(m), left[1..], []))
      && (left[0].kind.Comma? ==> r == PItems(scan, left[1..], index + 1, m))
  {
    FreshSlot(acc, Index(index), Null);
    RefillSlot(acc, Index(index), Null, n);
  }

  lemma ItemFails(scan: string -> Option<real>, index: int, ts: seq<Token>, acc: Entries)
    requires AllBelow(acc, Index(index)) && !PValue(scan, ts, Null).ok
    ensures !PItems(scan, ts, index, acc).ok
  {
    FreshSlot(acc, Index(index), Null);
  }

  /** The tokens of the first item, and what follows them up to the end. */
  lemma ItemSplit(show: real -> string, m: Entries, next: int, close: seq<Token>)
    requires m.Entry? && WFItems(m, next)
    ensures var after := ItemsAfter(m, next);
      var left := if after.End? then close else [Token(Comma, ",")] + (ItemTokens(show, after, next + 1) + close);
      ItemTokens(show, m, next) + close == Tokens(show, ItemAt(m, next)) + left
  {
    var after := ItemsAfter(m, next);
    var v := Tokens(show, ItemAt(m, next));
    if after.Entry? {
      var more := [Token(Comma, ",")] + ItemTokens(show, after, next + 1);
      assert ItemTokens(show, m, next) == v + more;
      Associate(v, more, close);
      Associate([Token(Comma, ",")], ItemTokens(show, after, next + 1), close);
    } else {
      assert ItemTokens(show, m, next) == v + [] == v;
    }
  }

  lemma {:induction false} RereadItem(scan: string -> Option<real>, show: real -> string,
                                      m: Entries, next: int, left: seq<Token>)
    requires m.Entry? && WFItems(m, next) && WritableMap(m)
    ensures var v := ItemAt(m, next);
      var r := PValue(scan, Tokens(show, v) + left, Null);
      && (r.ok <==> Readable(scan, show, v))
      && (r.ok ==> r == Parsed(true, Norm(scan, show, v), left, []))
    decreases m, Gap(m, next), 0
  {
    if m.key == Index(next) {
      RereadValue(scan, show, m.value, left, Null);
    } else {
      RereadScalar(scan, show, Null, left, Null);
    }
  }

  lemma NormStep(scan: string -> Option<real>, show: real -> string, m: Entries, next: int)
    requires m.Entry? && WFItems(m, next)
    ensures ReadableMap(scan, show, m)
            <==> Readable(scan, show, ItemAt(m, next)) && ReadableMap(scan, show, ItemsAfter(m, next))
    ensures ReadableMap(scan, show, m) ==>
      NormItems(scan, show, m, next)
      == Entry(Index(next), Norm(scan, show, ItemAt(m, next)),
               NormItems(scan, show, ItemsAfter(m, next), next + 1))
  {
  }

  /** One round of the loop over the items: the first fails, is the last, or leads to those after it. */
  lemma {:induction false} RereadRound(scan: string -> Option<real>, show: real -> string,
                                       m: Entries, next: int, acc: Entries, rest: seq<Token>, ts: seq<Token>)
    requires m.Entry? && WFItems(m, next) && WritableMap(m) && AllBelow(acc, Index(next))
    requires ts == ItemTokens(show, m, next) + ([Token(ArrayEnd, "]")] + rest)
    ensures var close := [Token(ArrayEnd, "]")] + rest;
      var r := PItems(scan, ts, next, acc);
      var v, after := ItemAt(m, next), ItemsAfter(m, next);
      if !Readable(scan, show, v) then !r.ok
      else
        var acc' := Append(acc, Entry(Index(next), Norm(scan, show, v), End));
        if after.End? then r == Parsed(true, Arr(acc'), rest, [])
        else r == PItems(scan, ItemTokens(show, after, next + 1) + close, next + 1, acc')
    decreases m, Gap(m, next), 1
  {
    var close := [Token(ArrayEnd, "]")] + rest;
    var v := ItemAt(m, next);
    var after := ItemsAfter(m, next);
    var left := if after.End? then close else [Token(Comma, ",")] + (ItemTokens(show, after, next + 1) + close);
    ItemSplit(show, m, next, close);
    RereadItem(scan, show, m, next, left);
    if !Readable(scan, show, v) {
      ItemFails(scan, next, Tokens(show, v) + left, acc);
    } else {
      ItemValue(scan, next, Tokens(show, v) + left, acc, Norm(scan, show, v), left);
      if after.End? {
        FrontToken(Token(ArrayEnd, "]"), rest);
      } else {
        FrontToken(Token(Comma, ","), ItemTokens(show, after, next + 1) + close);
      }
    }
  }

  /** The whole array from its first item and what is read of the rest. */
  lemma RereadFrom(scan: string -> Option<real>, show: real -> string, m: Entries, next: int, acc: Entries,
                   rest: seq<Token>, r: Parsed, more: Parsed)
    requires m.Entry? && WFItems(m, next)
    requires var v, after := ItemAt(m, next), ItemsAfter(m, next);
      if !Readable(scan, show, v) then !r.ok
      else
        var acc' := Append(acc, Entry(Index(next), Norm(scan, show, v), End));
        if after.End? then r == Parsed(true, Arr(acc'), rest, [])
        else
          && r == more && (more.ok <==> ReadableMap(scan, show, after))
          && (more.ok ==> more == Parsed(true, Arr(Append(acc', NormItems(scan, show, after, next + 1))), rest, []))
    ensures r.ok <==> ReadableMap(scan, show, m)
    ensures r.ok ==> r == Parsed(true, Arr(Append(acc, NormItems(scan, show, m, next))), rest, [])
  {
    NormStep(scan, show, m, next);
    var after := ItemsAfter(m, next);
    if Readable(scan, show, ItemAt(m, next)) && after.Entry? && ReadableMap(scan, show, after) {
      AppendEntry(acc, Index(next), Norm(scan, show, ItemAt(m, next)), NormItems(scan, show, after, next + 1));
    }
  }

  lemma {:induction false} RereadItems(scan: string -> Option<real>, show: real -> string,
                                       m: Entries, next: int, acc: Entries, rest: seq<Token>, ts: seq<Token>)
    requires m.Entry? && WFItems(m, next) && WritableMap(m) && AllBelow(acc, Index(next))
    requires ts == ItemTokens(show, m, next) + ([Token(ArrayEnd, "]")] + rest)
    ensures var r := PItems(scan, ts, next, acc);
      && (r.ok <==> ReadableMap(scan, show, m))
      && (r.ok ==> r == Parsed(true, Arr(Append(acc, NormItems(scan, show, m, next))), rest, []))
    decreases m, Gap(m, next)
  {
    RereadRound(scan, show, m, next, acc, rest, ts);
    var after := ItemsAfter(m, next);
    if Readable(scan, show, ItemAt(m, next)) && after.Entry? {
      RereadRest(scan, show, m, next, acc, rest);
    }
    RereadFrom(scan, show, m, next, acc, rest, PItems(scan, ts, next, acc), PItems(scan, ts, next, acc));
  }

  lemma {:induction false} RereadRest(scan: string -> Option<real>, show: real -> string,
                                      m: Entries, next: int, acc: Entries, rest: seq<Token>)
    requires m.Entry? && WFItems(m, next) && WritableMap(m) && AllBelow(acc, Index(next))
    requires ItemsAfter(m, next).Entry? && Readable(scan, show, ItemAt(m, next))
    ensures var after := ItemsAfter(m, next);
      var acc' := Append(acc, Entry(Index(next), Norm(scan, show, ItemAt(m, next)), End));
      var r := PItems(scan, ItemTokens(show, after, next + 1) + ([Token(ArrayEnd, "]")] + rest), next + 1, acc');
      && (r.ok <==> ReadableMap(scan, show, after))
      && (r.ok ==> r == Parsed(true, Arr(Append(acc', NormItems(scan, show, after, next + 1))), rest, []))
    decreases m, Gap(m, next), 1
  {
    var after, n := ItemsAfter(m, next), Norm(scan, show, ItemAt(m, next));
    BelowExtends(acc, Index(next), n, Index(next + 1));
    RereadItems(scan, show, after, next + 1, Append(acc, Entry(Index(next), n, End)), rest,
                ItemTokens(show, after, next + 1) + ([Token(ArrayEnd, "]")] + rest));
  }

  /** Name and colon of a written member lead to its value. */
  lemma MemberName(scan: string -> Option<real>, s: string, more: seq<Token>, last: string, acc: Entries)
    requires '\0' !in s
    ensures PMembers(scan, [Token(StringTok, Quote(s)), Token(Colon, ":")] + more, last, acc)
            == PMember(scan, more, s, Slot(acc, Name(s)))
  {
    var ts := [Token(StringTok, Quote(s)), Token(Colon, ":")] + more;
    assert Tail(ts) == [Token(Colon, ":")] + more;
    assert Tail(Tail(ts)) == more;
    QuoteInContext(s, "");
  }

  /** A member whose value reads back is stored under its name; the token after it decides. */
  lemma MemberValue(scan: string -> Option<real>, s: string, ts: seq<Token>, acc: Entries, n: Value, left: seq<Token>)
    requires '\0' !in s && AllBelow(acc, Name(s))
    requires PValue(scan, ts, Null) == Parsed(true, n, left, []) && left != []
    ensures var m := Append(acc, Entry(Name(s), n, End));
      var r := PMember(scan, ts, s, Slot(acc, Name(s)));
      && (left[0].kind.ObjectEnd? ==> r == Parsed(true, Obj(m), left[1..], []))
      && (left[0].kind.Comma? ==> r == PMembers(scan, left[1..], s, m))
  {
    FreshSlot(acc, Name(s), Null);
    RefillSlot(acc, Name(s), Null, n);
  }

  lemma MemberFails(scan: string -> Option<real>, s: string, ts: seq<Token>, acc: Entries)
    requires '\0' !in s && AllBelow(acc, Name(s)) && !PValue(scan, ts, Null).ok
    ensures !PMember(scan, ts, s, Slot(acc, Name(s))).ok
  {
    FreshSlot(acc, Name(s), Null);
  }

  lemma MemberSplit(show: real -> string, m: Entries, close: seq<Token>)
    requires m.Entry? && WFMembers(m)
    ensures var left := if m.rest.End? then close else [Token(Comma, ",")] + (MemberTokens(show, m.rest) + close);
      MemberTokens(show, m) + close
      == [Token(StringTok, Quote(m.key.s)), Token(Colon, ":")] + (Tokens(show, m.value) + left)
  {
    var name := [Token(StringTok, Quote(m.key.s)), Token(Colon, ":")];
    var v := Tokens(show, m.value);
    var more := if m.rest.End? then [] else [Token(Comma, ",")] + MemberTokens(show, m.rest);
    assert MemberTokens(show, m) == name + v + more;
    Associate(name + v, more, close);
    Associate(name, v, more + close);
    if m.rest.Entry? {
      Associate([Token(Comma, ",")], MemberTokens(show, m.rest), close);
    }
  }

  lemma {:induction false} RereadMembers(scan: string -> Option<real>, show: real -> string,
                                         m: Entries, last: string, acc: Entries, rest: seq<Token>)
    requires m.Entry? && WFMembers(m) && WritableMap(m) && AllBelow(acc, m.key)
    ensures var r := PMembers(scan, MemberTokens(show, m) + ([Token(ObjectEnd, "}")] + rest), last, acc);
      && (r.ok <==> ReadableMap(scan, show, m))
      && (r.ok ==> r == Parsed(true, Obj(Append(acc, NormMembers(scan, show, m))), rest, []))
    decreases m, 0
  {
    var close := [Token(ObjectEnd, "}")] + rest;
    var left := if m.rest.End? then close else [Token(Comma, ",")] + (MemberTokens(show, m.rest) + close);
    var ts := Tokens(show, m.value) + left;
    MemberSplit(show, m, close);
    MemberName(scan, m.key.s, ts, last, acc);
    RereadValue(scan, show, m.value, left, Null);
    if !Readable(scan, show, m.value) {
      MemberFails(scan, m.key.s, ts, acc);
    } else {
      var n := Norm(scan, show, m.value);
      MemberValue(scan, m.key.s, ts, acc, n, left);
      if m.rest.End? {
        FrontToken(Token(ObjectEnd, "}"), rest);
      } else {
        FrontToken(Token(Comma, ","), MemberTokens(show, m.rest) + close);
        BelowExtends(acc, m.key, n, m.rest.key);
        RereadMembers(scan, show, m.rest, m.key.s, Append(acc, Entry(m.key, n, End)), rest);
        if ReadableMap(scan, show, m.rest) {
          AppendEntry(acc, m.key, n, NormMembers(scan, show, m.rest));
        }
      }
    }
  }

  // ---- Exactly which values survive -----------------------------------------------------------

  predicate RealFree(v: Value)
    decreases v
  {
    match v
    case Real(_) => false
    case Arr(m) => RealFreeMap(m)
    case Obj(m) => RealFreeMap(m)
    case _ => true
  }

  predicate RealFreeMap(m: Entries)
    decreases m
  {
    m.Entry? ==> RealFree(m.value) && RealFreeMap(m.rest)
  }

  /** Integers in the range and signedness the reader itself produces, arrays without gaps. */
  predicate Canonical(v: Value)
    decreases v
  {
    match v
    case Int(i) => -MAX_READ_NEGATIVE <= i
    case UInt(u) => MAX_INT < u <= MAX_READ_UNSIGNED
    case Real(_) => false
    case Arr(m) => CanonicalItems(m, 0)
    case Obj(m) => CanonicalMembers(m)
    case _ => true
  }

  predicate CanonicalItems(m: Entries, next: int)
    decreases m
  {
    m.Entry? ==> m.key == Index(next) && Canonical(m.value) && CanonicalItems(m.rest, next + 1)
  }

  predicate CanonicalMembers(m: Entries)
    decreases m
  {
    m.Entry? ==> Canonical(m.value) && CanonicalMembers(m.rest)
  }

  lemma {:induction false} NormFixesCanonical(scan: string -> Option<real>, show: real -> string, v: Value)
    requires Writable(v) && RealFree(v)
    ensures (Readable(scan, show, v) && Norm(scan, show, v) == v) <==> Canonical(v)
    decreases v
  {
    match v
    case Int(i) => IntTextDecodes(scan, i);
    case UInt(u) => IntTextDecodes(scan, u);
    case Arr(m) => NormFixesItems(scan, show, m, 0);
    case Obj(m) => NormFixesMembers(scan, show, m);
    case _ =>
  }

  lemma {:induction false} NormFixesItems(
    scan: string -> Option<real>, show: real -> string, m: Entries, next: int)
    requires WFItems(m, next) && WritableMap(m) && RealFreeMap(m)
    ensures (ReadableMap(scan, show, m) && NormItems(scan, show, m, next) == m) <==> CanonicalItems(m, next)
    decreases m
  {
    if m.Entry? && m.key == Index(next) {
      NormFixesCanonical(scan, show, m.value);
      NormFixesItems(scan, show, m.rest, next + 1);
    }
  }

  lemma {:induction false} NormFixesMembers(scan: string -> Option<real>, show: real -> string, m: Entries)
    requires WFMembers(m) && WritableMap(m) && RealFreeMap(m)
    ensures (ReadableMap(scan, show, m) && NormMembers(scan, show, m) == m) <==> CanonicalMembers(m)
    decreases m
  {
    if m.Entry? {
      NormFixesCanonical(scan, show, m.value);
      NormFixesMembers(scan, show, m.rest);
    }
  }

  /** `FastWriter::write`. */
  function FastText(show: real -> string, colon: string, v: Value): string
    requires WF(v)
  {
    Compact(show, colon, v) + "\n"
  }

  lemma FastTextLexes(show: real -> string, colon: string, v: Value)
    requires ShowsNumbers(show) && IsColon(colon) && Writable(v)
    ensures LexesTo(FastText(show, colon, v), Tokens(show, v))
  {
    CompactLexes(show, colon, v);
    SpacesLex("\n");
    Join(Compact(show, colon, v), Tokens(show, v), "\n", []);
  }

  /** Any document with the tokens of `v`, however laid out, parses to the normal form of `v`,
      without error; or fails because a number in it does not read back. */
  lemma DocumentReadsBack(
    scan: string -> Option<real>, show: real -> string, v: Value, document: string, root: Value)
    requires Writable(v) && LexesTo(document, Tokens(show, v))
    ensures ParseText(scan, document, root).ok <==> Readable(scan, show, v)
    ensures Readable(scan, show, v) ==>
      ParseText(scan, document, root) == Parsed(true, Norm(scan, show, v), [], [])
  {
    assert Lex(document) == Tokens(show, v);
    RereadValue(scan, show, v, [], root);
    assert Tokens(show, v) + [] == Tokens(show, v);
  }

  /** Layout independence: any text with the tokens of `v` has those of the compact text, and
      the reader cannot tell the two apart. */
  lemma LayoutIndependence(
    scan: string -> Option<real>, show: real -> string, v: Value, text: string, root: Value)
    requires ShowsNumbers(show) && Writable(v) && LexesTo(text, Tokens(show, v))
    ensures Lex(text) == Lex(FastText(show, ":", v))
    ensures ParseText(scan, text, root) == ParseText(scan, FastText(show, ":", v), root)
  {
    MarksLex();
    FastTextLexes(show, ":", v);
  }

  /** The round trip: a document with the tokens of a real-free tree, as all three writers
      produce, parses back to that tree exactly when the tree is canonical. */
  lemma RoundTrip(scan: string -> Option<real>, show: real -> string, v: Value, document: string, root: Value)
    requires Writable(v) && RealFree(v) && LexesTo(document, Tokens(show, v))
    ensures (ParseText(scan, document, root).ok && ParseText(scan, document, root).value == v)
            <==> Canonical(v)
    ensures Canonical(v) ==> ParseText(scan, document, root) == Parsed(true, v, [], [])
  {
    DocumentReadsBack(scan, show, v, document, root);
    NormFixesCanonical(scan, show, v);
  }

  /** `Reader::parse` of `FastWriter::write`. */
  lemma FastRoundTrip(scan: string -> Option<real>, show: real -> string, v: Value, root: Value)
    requires ShowsNumbers(show) && Writable(v) && RealFree(v)
    ensures var back := ParseText(scan, FastText(show, ":", v), root);
      && ((back.ok && back.value == v) <==> Canonical(v))
      && (Canonical(v) ==> back == Parsed(true, v, [], []))
  {
    MarksLex();
    FastTextLexes(show, ":", v);
    RoundTrip(scan, show, v, FastText(show, ":", v), root);
  }

  // ---- No white space --------------------------------------------------------------------------------

  /** The characters of a run of tokens, side by side. */
  function Texts(ts: seq<Token>): string {
    if ts == [] then "" else ts[0].text + Texts(ts[1..])
  }

  lemma {:induction false} TextsJoin(a: seq<Token>, b: seq<Token>)
    ensures Texts(a + b) == Texts(a) + Texts(b)
  {
    if a == [] {
      assert a + b == b;
    } else {
      assert (a + b)[1..] == a[1..] + b;
      TextsJoin(a[1..], b);
    }
  }

  lemma TextOfOne(t: Token)
    ensures Texts([t]) == t.text
  {
    assert Texts([t]) == t.text + Texts([]);
  }

  /** The compact text is its tokens and nothing else: no white space, and nothing left out. */
  lemma {:induction false} CompactIsTokens(show: real -> string, v: Value)
    requires WF(v)
    ensures Compact(show, ":", v) == Texts(Tokens(show, v))
    decreases v, 0
  {
    match v
    case Arr(m) =>
      Enclosed(Token(ArrayBegin, "["), if m.End? then [] else ItemTokens(show, m, 0), Token(ArrayEnd, "]"));
      if m.Entry? {
        CompactItemsAreTokens(show, m, 0);
      }
    case Obj(m) =>
      Enclosed(Token(ObjectBegin, "{"), if m.End? then [] else MemberTokens(show, m), Token(ObjectEnd, "}"));
      if m.Entry? {
        CompactMembersAreTokens(show, m);
      }
    case _ => TextOfOne(Token(ScalarKind(v), ScalarText(show, v)));
  }

  lemma Enclosed(open: Token, inner: seq<Token>, close: Token)
    ensures Texts([open] + inner + [close]) == open.text + Texts(inner) + close.text
  {
    TextsJoin([open] + inner, [close]);
    TextsJoin([open], inner);
    TextOfOne(open);
    TextOfOne(close);
  }

  lemma {:induction false} CompactItemsAreTokens(show: real -> string, m: Entries, next: int)
    requires m.Entry? && WFItems(m, next)
    ensures CompactItems(show, ":", m, next) == Texts(ItemTokens(show, m, next))
    decreases m, Gap(m, next)
  {
    var after := ItemsAfter(m, next);
    var first := if m.key == Index(next) then Tokens(show, m.value) else [Token(NullTok, "null")];
    if m.key == Index(next) {
      CompactIsTokens(show, m.value);
    } else {
      TextOfOne(Token(NullTok, "null"));
    }
    if after.Entry? {
      CompactItemsAreTokens(show, after, next + 1);
      ThenMore(first, ItemTokens(show, after, next + 1));
    } else {
      assert first + [] == first;
    }
  }

  lemma ThenMore(first: seq<Token>, more: seq<Token>)
    ensures Texts(first + ([Token(Comma, ",")] + more)) == Texts(first) + ("," + Texts(more))
  {
    TextsJoin(first, [Token(Comma, ",")] + more);
    TextsJoin([Token(Comma, ",")], more);
    TextOfOne(Token(Comma, ","));
  }

  lemma {:induction false} CompactMembersAreTokens(show: real -> string, m: Entries)
    requires m.Entry? && WFMembers(m)
    ensures CompactMembers(show, ":", m) == Texts(MemberTokens(show, m))
    decreases m, 0
  {
    var name, colon := Token(StringTok, Quote(m.key.s)), Token(Colon, ":");
    var first := [name, colon] + Tokens(show, m.value);
    CompactIsTokens(show, m.value);
    TextsJoin([name, colon], Tokens(show, m.value));
    TextsJoin([name], [colon]);
    assert [name] + [colon] == [name, colon];
    TextOfOne(name);
    TextOfOne(colon);
    if m.rest.Entry? {
      CompactMembersAreTokens(show, m.rest);
      ThenMore(first, MemberTokens(show, m.rest));
    } else {
      assert first + [] == first;
    }
  }
}
