/** The parser of depend/json/json_reader.cpp over tokens: what each read method makes of the
    tokens left, including the partial value and the tokens left after an error. */
module JsonGrammar {
  import opened Basics
  import opened JsonValues
  import opened JsonText
  import opened JsonLexer

  datatype ErrorInfo = ErrorInfo(message: string, token: Token)

  /** Success flag, content of the current node, tokens left, errors recorded. */
  datatype Parsed = Parsed(ok: bool, value: Value, rest: seq<Token>, errors: seq<ErrorInfo>)

  const VALUE_EXPECTED := "Syntax error: value, object or array expected."
  const NAME_EXPECTED := "Missing '}' or object member name"
  const COLON_EXPECTED := "Missing ':' after object member name"
  const COMMA_OR_BRACE := "Missing ',' or '}' in object declaration"
  const COMMA_OR_BRACKET := "Missing ',' or ']' in array declaration"

  /** `readToken`: past the last token it keeps answering end of stream. */
  function Head(ts: seq<Token>): Token {
    if ts == [] then Token(EndTok, "") else ts[0]
  }

  function Tail(ts: seq<Token>): seq<Token> {
    if ts == [] then [] else ts[1..]
  }

  function DropComments(ts: seq<Token>): (r: seq<Token>)
    ensures |r| <= |ts| && !Head(r).kind.CommentTok?
  {
    if ts != [] && ts[0].kind.CommentTok? then DropComments(ts[1..]) else ts
  }

  /** `recoverFromError`: skips past the closing token, or to the end of the stream. */
  function Recover(ts: seq<Token>, until: TokenType): (r: seq<Token>)
    ensures |r| <= |ts|
  {
    if ts == [] then []
    else if ts[0].kind == until || ts[0].kind.EndTok? then ts[1..]
    else Recover(ts[1..], until)
  }

  /** Recovery leaves what follows the first token that is the wanted one or ends the stream, and nothing if
      there is none. */
  lemma {:induction false} RecoverStops(ts: seq<Token>, until: TokenType, k: nat)
    requires k <= |ts| && forall j :: 0 <= j < k ==> ts[j].kind != until && !ts[j].kind.EndTok?
    ensures k == |ts| ==> Recover(ts, until) == []
    ensures k < |ts| && (ts[k].kind == until || ts[k].kind.EndTok?) ==> Recover(ts, until) == ts[k + 1..]
  {
    if k > 0 {
      assert forall j :: 0 <= j < k - 1 ==> ts[1..][j] == ts[j + 1];
      RecoverStops(ts[1..], until, k - 1);
    }
  }

  function NumberValue(scan: string -> Option<real>, t: Token): Result<Value, string> {
    if NumberLexeme(t.text) then DecodeNumber(scan, t.text) else DecodeDouble(scan, t.text)
  }

  function StringValue(t: Token): Result<string, string> {
    if |t.text| >= 2 then Unescape(t.text[1..|t.text| - 1]) else Ok([])
  }

  function Failed(value: Value, rest: seq<Token>, message: string, t: Token): Parsed {
    Parsed(false, value, rest, [ErrorInfo(message, t)])
  }

  /** `readValue`, where `cur` is what the current node holds on entry. */
  function PValue(scan: string -> Option<real>, ts: seq<Token>, cur: Value): (r: Parsed)
    ensures |r.rest| <= |ts| && (r.ok ==> |r.rest| < |ts|)
    ensures |r.errors| <= 1 && (r.ok <==> r.errors == [])
    decreases |ts|, 0
  {
    var from := DropComments(ts);
    var t := Head(from);
    var rest := Tail(from);
    match t.kind
    case ObjectBegin => PMembers(scan, rest, "", End)
    case ArrayBegin =>
      if Head(rest).kind.ArrayEnd? then Parsed(true, Arr(End), Tail(rest), [])
      else PItems(scan, rest, 0, End)
    case NumberTok =>
      (match NumberValue(scan, t)
       case Ok(v) => Parsed(true, v, rest, [])
       case Err(e) => Failed(cur, rest, e, t))
    case StringTok =>
      (match StringValue(t)
       case Ok(s) => Parsed(true, Str(Chars(CStr(s))), rest, [])
       case Err(e) => Failed(cur, rest, e, t))
    case TrueTok => Parsed(true, Bool(true), rest, [])
    case FalseTok => Parsed(true, Bool(false), rest, [])
    case NullTok => Parsed(true, Null, rest, [])
    case _ => Failed(cur, rest, VALUE_EXPECTED, t)
  }

  /** The loop of `readObject`, with the member name read last and the members so far. */
  function PMembers(scan: string -> Option<real>, ts: seq<Token>, name: string, m: Entries): (r: Parsed)
    ensures |r.rest| <= |ts| && (r.ok ==> |r.rest| < |ts|)
    ensures |r.errors| <= 1 && (r.ok <==> r.errors == [])
    decreases |ts|, 1
  {
    var from := DropComments(ts);
    var t := Head(from);
    var rest := Tail(from);
    if t.kind.ObjectEnd? && name == "" then Parsed(true, Obj(m), rest, [])
    else if !t.kind.StringTok? then Failed(Obj(m), Recover(rest, ObjectEnd), NAME_EXPECTED, t)
    else
      match StringValue(t)
      case Err(e) => Failed(Obj(m), Recover(rest, ObjectEnd), e, t)
      case Ok(newName) =>
        if !Head(rest).kind.Colon? then
          Failed(Obj(m), Recover(Tail(rest), ObjectEnd), COLON_EXPECTED, Head(rest))
        else
          PMember(scan, Tail(rest), newName, Slot(m, Name(CStr(newName))))
  }

  /** The second half of the loop: the member's value and the token after it. */
  function PMember(scan: string -> Option<real>, ts: seq<Token>, name: string, m: Entries): (r: Parsed)
    ensures |r.rest| <= |ts| && (r.ok ==> |r.rest| < |ts|)
    ensures |r.errors| <= 1 && (r.ok <==> r.errors == [])
    decreases |ts|, 1
  {
    var key := Name(CStr(name));
    var child := PValue(scan, ts, Lookup(m, key).GetOr(Null));
    var m' := Store(m, key, child.value);
    var comma := Head(child.rest);
    if !child.ok then Parsed(false, Obj(m'), Recover(child.rest, ObjectEnd), child.errors)
    else if !comma.kind.ObjectEnd? && !comma.kind.Comma? && !comma.kind.CommentTok? then
      Failed(Obj(m'), Recover(Tail(child.rest), ObjectEnd), COMMA_OR_BRACE, comma)
    else
      // after comments, any token other than a closing brace stands in for the comma
      var after := DropComments(child.rest);
      if Head(after).kind.ObjectEnd? then Parsed(true, Obj(m'), Tail(after), [])
      else PMembers(scan, Tail(after), name, m')
  }

  /** The loop of `readArray`, with the next index and the items so far. */
  function PItems(scan: string -> Option<real>, ts: seq<Token>, index: int, m: Entries): (r: Parsed)
    ensures |r.rest| <= |ts| && (r.ok ==> |r.rest| < |ts|)
    ensures |r.errors| <= 1 && (r.ok <==> r.errors == [])
    decreases |ts|, 1
  {
    var key := Index(index);
    var slot := Slot(m, key);
    var child := PValue(scan, ts, Lookup(slot, key).GetOr(Null));
    var m' := Store(slot, key, child.value);
    var sep := Head(child.rest);
    if !child.ok then Parsed(false, Arr(m'), Recover(child.rest, ArrayEnd), child.errors)
    else if sep.kind.ArrayEnd? then Parsed(true, Arr(m'), Tail(child.rest), [])
    else if !sep.kind.Comma? then
      Failed(Arr(m'), Recover(Tail(child.rest), ArrayEnd), COMMA_OR_BRACKET, sep)
    else PItems(scan, Tail(child.rest), index + 1, m')
  }

  /** `Reader::parse` on a whole document, into a root that holds `root`. */
  function ParseText(scan: string -> Option<real>, document: string, root: Value): Parsed {
    PValue(scan, Lex(document), root)
  }

  // ---- Every value read is well formed -------------------------------------------------

  lemma SlotOfItems(m: Entries, i: int)
    requires WFItems(m, 0) && i >= 0
    ensures WFItems(Slot(m, Index(i)), 0)
    ensures WF(Lookup(Slot(m, Index(i)), Index(i)).GetOr(Null))
  {
    if Lookup(m, Index(i)).None? {
      StoreKeepsItems(m, 0, i, Null);
      StoreThenLookup(m, Index(i), Null, Index(i));
    } else {
      FoundItem(m, 0, Index(i));
    }
  }

  lemma {:induction false} FoundItem(m: Entries, low: int, k: Key)
    requires WFItems(m, low)
    ensures WF(Lookup(m, k).GetOr(Null))
    decreases m
  {
    if m.Entry? && m.key != k {
      FoundItem(m.rest, m.key.i + 1, k);
    }
  }

  lemma {:induction false} FoundMember(m: Entries, k: Key)
    requires WFMembers(m)
    ensures WF(Lookup(m, k).GetOr(Null))
    decreases m
  {
    if m.Entry? && m.key != k {
      FoundMember(m.rest, k);
    }
  }

  lemma NumbersReadAreWellFormed(scan: string -> Option<real>, t: Token)
    ensures NumberValue(scan, t).Ok? ==> WF(NumberValue(scan, t).value)
  {
  }

  /** Integers within their machine range, C strings, and maps in strict key order: what the
      reader leaves in the current node is well formed, on success and after an error. */
  lemma {:induction false} ValueReadIsWellFormed(scan: string -> Option<real>, ts: seq<Token>, cur: Value)
    requires WF(cur)
    ensures WF(PValue(scan, ts, cur).value)
    decreases |ts|, 0
  {
    var from := DropComments(ts);
    var t := Head(from);
    if t.kind.ObjectBegin? {
      MembersReadAreWellFormed(scan, Tail(from), "", End);
    } else if t.kind.ArrayBegin? && !Head(Tail(from)).kind.ArrayEnd? {
      ItemsReadAreWellFormed(scan, Tail(from), 0, End);
    } else if t.kind.NumberTok? {
      NumbersReadAreWellFormed(scan, t);
    }
  }

  lemma {:induction false} MembersReadAreWellFormed(
    scan: string -> Option<real>, ts: seq<Token>, name: string, m: Entries)
    requires WFMembers(m)
    ensures WF(PMembers(scan, ts, name, m).value)
    decreases |ts|, 1
  {
    var from := DropComments(ts);
    var t := Head(from);
    var rest := Tail(from);
    if t.kind.StringTok? && StringValue(t).Ok? && Head(rest).kind.Colon? {
      var newName := StringValue(t).value;
      StoreKeepsMembers(m, CStr(newName), Null);
      MemberReadIsWellFormed(scan, Tail(rest), newName, Slot(m, Name(CStr(newName))));
    }
  }

  lemma {:induction false} MemberReadIsWellFormed(
    scan: string -> Option<real>, ts: seq<Token>, name: string, m: Entries)
    requires WFMembers(m)
    ensures WF(PMember(scan, ts, name, m).value)
    decreases |ts|, 1
  {
    var key := Name(CStr(name));
    FoundMember(m, key);
    ValueReadIsWellFormed(scan, ts, Lookup(m, key).GetOr(Null));
    var child := PValue(scan, ts, Lookup(m, key).GetOr(Null));
    StoreKeepsMembers(m, CStr(name), child.value);
    if child.ok {
      MembersReadAreWellFormed(scan, Tail(DropComments(child.rest)), name, Store(m, key, child.value));
    }
  }

  lemma {:induction false} ItemsReadAreWellFormed(
    scan: string -> Option<real>, ts: seq<Token>, index: int, m: Entries)
    requires WFItems(m, 0) && index >= 0
    ensures WF(PItems(scan, ts, index, m).value)
    decreases |ts|, 1
  {
    var key := Index(index);
    SlotOfItems(m, index);
    var slot := Slot(m, key);
    ValueReadIsWellFormed(scan, ts, Lookup(slot, key).GetOr(Null));
    var child := PValue(scan, ts, Lookup(slot, key).GetOr(Null));
    StoreKeepsItems(slot, 0, index, child.value);
    if child.ok {
      ItemsReadAreWellFormed(scan, Tail(child.rest), index + 1, Store(slot, key, child.value));
    }
  }
}
