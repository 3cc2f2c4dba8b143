/** `Json::Reader`: the cursor over the document, the node stack and the error list, updated
    step by step, and the proof that they compute what the token grammar says. */
module JsonReader {
  import opened Basics
  import opened JsonValues
  import opened JsonText
  import opened JsonLexer
  import opened JsonGrammar
  import opened JsonSyntax

  class Reader {
    const scan: string -> Option<real>  // sscanf "%lf"
    var document: string
    var current: nat                    // current_ - begin_
    var nodes: seq<Value>               // nodes_: the values under construction, innermost last
    var errors: seq<ErrorInfo>
    ghost var toks: seq<Token>          // the tokens not yet read

    constructor (scan: string -> Option<real>)
      ensures Valid() && this.scan == scan && nodes == [] && errors == []
    {
      this.scan := scan;
      document, current, nodes, errors, toks := "", 0, [], [], [];
    }

    /** The cursor lies in [begin_, end_]. */
    ghost predicate InDocument()
      reads this`document, this`current
    {
      current <= |document|
    }

    ghost function Left(): string
      reads this`document, this`current
      requires InDocument()
    {
      document[current..]
    }

    /** The cursor is in the document, and `toks` is what the rest of it lexes to. */
    ghost predicate Valid()
      reads this`document, this`current, this`toks
    {
      InDocument() && LexesTo(Left(), toks)
    }

    function Top(): Value
      reads this
      requires nodes != []
    {
      nodes[|nodes| - 1]
    }

    method SetCurrentValue(v: Value)
      requires nodes != []
      modifies this`nodes
      ensures nodes == old(nodes[..|nodes| - 1]) + [v]
    {
      nodes := nodes[..|nodes| - 1] + [v];
    }

    // ---- Characters ---------------------------------------------------------------------

    method GetNextChar() returns (c: char)
      requires InDocument()
      modifies this`current
      ensures InDocument()
      ensures old(current) == |document| ==> c == '\0' && current == old(current)
      ensures old(current) < |document| ==> c == document[old(current)] && current == old(current) + 1
    {
      if current == |document| {
        return '\0';
      }
      c := document[current];
      current := current + 1;
    }

    /** `*current_`, which is the terminating NUL at the end of the document. */
    function Peek(): char
      reads this
    {
      if current < |document| then document[current] else '\0'
    }

    method SkipSpaces()
      requires InDocument()
      modifies this`current
      ensures InDocument() && current == old(current) + SpaceLen(old(Left()))
    {
      while current != |document|
        invariant InDocument() && old(current) <= current
        invariant current + SpaceLen(Left()) == old(current) + SpaceLen(old(Left()))
        decreases |document| - current
      {
        assert Left()[1..] == document[current + 1..];
        var c := document[current];
        if c == ' ' || c == '\t' || c == '\r' || c == '\n' {
          current := current + 1;
        } else {
          break;
        }
      }
    }

    method Match(pattern: string) returns (ok: bool)
      requires InDocument()
      modifies this`current
      ensures InDocument() && ok == StartsWith(old(Left()), pattern)
      ensures current == old(current) + if ok then |pattern| else 0
    {
      if |document| - current < |pattern| {
        return false;
      }
      var index := |pattern|;
      while index > 0
        invariant 0 <= index <= |pattern|
        invariant forall k :: index <= k < |pattern| ==> Left()[k] == pattern[k]
      {
        index := index - 1;
        if document[current + index] != pattern[index] {
          assert Left()[index] != pattern[index];
          return false;
        }
      }
      assert Left()[..|pattern|] == pattern;
      current := current + |pattern|;
      return true;
    }

    method ReadNumber()
      requires InDocument()
      modifies this`current
      ensures InDocument() && current == old(current) + NumberLen(old(Left()))
    {
      while current != |document|
        invariant InDocument() && old(current) <= current
        invariant current + NumberLen(Left()) == old(current) + NumberLen(old(Left()))
        decreases |document| - current
      {
        assert Left()[1..] == document[current + 1..];
        if !NumChar(document[current]) {
          break;
        }
        current := current + 1;
      }
    }

    method ReadString() returns (ok: bool)
      requires InDocument()
      modifies this`current
      ensures InDocument() && current == old(current) + StringLen(old(Left()))
      ensures ok == StringClosed(old(Left()))
    {
      var c := '\0';
      while current != |document|
        invariant InDocument() && old(current) <= current
        invariant current + StringLen(Left()) == old(current) + StringLen(old(Left()))
        invariant StringClosed(Left()) == StringClosed(old(Left()))
        invariant c != '\"'
        decreases |document| - current
      {
        ghost var left := Left();
        c := GetNextChar();
        assert Left() == left[1..];
        if c == '\\' {
          var _ := GetNextChar();
          assert |left| > 1 ==> Left() == left[2..];
        } else if c == '\"' {
          break;
        }
      }
      return c == '\"';
    }

    method ReadCStyleComment() returns (ok: bool)
      requires InDocument()
      modifies this`current
      ensures InDocument() && current == old(current) + CCommentLen(old(Left()))
      ensures ok == CCommentClosed(old(Left()))
    {
      ghost var stopped := false;
      while current != |document|
        invariant InDocument() && old(current) <= current && !stopped
        invariant current + CCommentLen(Left()) == old(current) + CCommentLen(old(Left()))
        invariant CCommentClosed(Left()) == CCommentClosed(old(Left()))
        decreases |document| - current
      {
        ghost var left := Left();
        var c := GetNextChar();
        assert Left() == left[1..];
        if c == '*' && Peek() == '/' {
          stopped := true;
          break;
        }
      }
      var next := GetNextChar();
      return next == '/';
    }

    method ReadCppStyleComment() returns (ok: bool)
      requires InDocument()
      modifies this`current
      ensures InDocument() && current == old(current) + CppCommentLen(old(Left())) && ok
    {
      while current != |document|
        invariant InDocument() && old(current) <= current
        invariant current + CppCommentLen(Left()) == old(current) + CppCommentLen(old(Left()))
        decreases |document| - current
      {
        ghost var left := Left();
        var c := GetNextChar();
        assert Left() == left[1..];
        if c == '\r' || c == '\n' {
          break;
        }
      }
      return true;
    }

    method ReadComment() returns (ok: bool)
      requires InDocument()
      modifies this`current
      ensures InDocument() && current + 1 == old(current) + ScanComment(old(Left())).len
      ensures ok == ScanComment(old(Left())).kind.CommentTok?
    {
      ghost var left := Left();
      var c := GetNextChar();
      ok := false;
      if left != [] {
        assert Left() == left[1..];
      }
      if c == '*' {
        ok := ReadCStyleComment();
      } else if c == '/' {
        ok := ReadCppStyleComment();
      }
    }

    // ---- Tokens -----------------------------------------------------------------------------

    /** The switch of `readToken`. */
    method ScanToken() returns (kind: TokenType)
      requires InDocument()
      modifies this`current
      ensures InDocument() && current >= old(current)
      ensures old(Left()) == [] ==> kind == EndTok && current == old(current)
      ensures old(Left()) != [] ==> Scanned(kind, current - old(current)) == Scan(old(Left()))
    {
      ghost var left := Left();
      var c := GetNextChar();
      var ok := true;
      if left != [] {
        assert Left() == left[1..];
      }
      if c == '{' {
        kind := ObjectBegin;
      } else if c == '}' {
        kind := ObjectEnd;
      } else if c == '[' {
        kind := ArrayBegin;
      } else if c == ']' {
        kind := ArrayEnd;
      } else if c == '\"' {
        kind := StringTok;
        ok := ReadString();
      } else if c == '/' {
        kind := CommentTok;
        ok := ReadComment();
      } else if IsDigit(c) || c == '-' {
        kind := NumberTok;
        ReadNumber();
      } else if c == 't' {
        kind := TrueTok;
        ok := Match("rue");
      } else if c == 'f' {
        kind := FalseTok;
        ok := Match("alse");
      } else if c == 'n' {
        kind := NullTok;
        ok := Match("ull");
      } else if c == ',' {
        kind := Comma;
      } else if c == ':' {
        kind := Colon;
      } else if c == '\0' {
        kind := EndTok;
      } else {
        ok := false;
      }
      if !ok {
        kind := ErrorTok;
      }
    }

    /** `readToken`: the front token of those left, or end of stream for ever after the last. */
    method ReadToken() returns (token: Token)
      requires Valid()
      modifies this`current, this`toks
      ensures Valid() && current >= old(current)
      ensures token == Head(old(toks)) && toks == Tail(old(toks))
      ensures WellLexed(token)
    {
      ghost var whole := Left();
      assert toks == Lex(whole);
      SkipSpaces();
      var start := current;
      ghost var left := Left();
      assert left == whole[SpaceLen(whole)..];
      var kind := ScanToken();
      token := Token(kind, document[start..current]);
      if left != [] {
        TokenRead(whole, left, Scan(left), document, start, current);
        TokensWellLexed(whole);
      }
      toks := Tail(toks);
    }

    /** The loops that replace a comment token by the next token that is none. */
    method PastComments(first: Token) returns (token: Token)
      requires Valid() && WellLexed(first)
      modifies this`current, this`toks
      ensures Valid() && current >= old(current) && WellLexed(token)
      ensures !first.kind.CommentTok? ==> token == first && toks == old(toks)
      ensures first.kind.CommentTok? ==>
        token == Head(DropComments(old(toks))) && toks == Tail(DropComments(old(toks)))
    {
      token := first;
      while token.kind.CommentTok?
        invariant Valid() && current >= old(current) && WellLexed(token)
        invariant !first.kind.CommentTok? ==> token == first && toks == old(toks)
        invariant token.kind.CommentTok? ==> DropComments(old(toks)) == DropComments(toks)
        invariant first.kind.CommentTok? && !token.kind.CommentTok? ==>
          token == Head(DropComments(old(toks))) && toks == Tail(DropComments(old(toks)))
        decreases if token.kind.CommentTok? then 1 + |toks| else 0
      {
        token := ReadToken();
      }
    }

    method SkipCommentTokens() returns (token: Token)
      requires Valid()
      modifies this`current, this`toks
      ensures Valid() && current >= old(current)
      ensures token == Head(DropComments(old(toks))) && toks == Tail(DropComments(old(toks)))
      ensures WellLexed(token)
    {
      token := ReadToken();
      token := PastComments(token);
    }

    // ---- Errors -------------------------------------------------------------------------------

    method AddError(message: string, token: Token) returns (ok: bool)
      modifies this`errors
      ensures errors == old(errors) + [ErrorInfo(message, token)] && !ok
    {
      errors := errors + [ErrorInfo(message, token)];
      return false;
    }

    method RecoverFromError(skipUntilToken: TokenType) returns (ok: bool)
      requires Valid()
      modifies this`current, this`toks
      ensures Valid() && current >= old(current)
      ensures toks == Recover(old(toks), skipUntilToken) && !ok
    {
      while true
        invariant Valid() && current >= old(current)
        invariant Recover(old(toks), skipUntilToken) == Recover(toks, skipUntilToken)
        decreases |toks|
      {
        var skip := ReadToken();
        if skip.kind == skipUntilToken || skip.kind.EndTok? {
          break;
        }
      }
      return false;
    }

    method AddErrorAndRecover(message: string, token: Token, skipUntilToken: TokenType) returns (ok: bool)
      requires Valid()
      modifies this`current, this`toks, this`errors
      ensures Valid() && current >= old(current)
      ensures toks == Recover(old(toks), skipUntilToken) && !ok
      ensures errors == old(errors) + [ErrorInfo(message, token)]
    {
      var _ := AddError(message, token);
      ok := RecoverFromError(skipUntilToken);
    }

    // ---- Values ---------------------------------------------------------------------------------

    method DecodeNumberToken(token: Token) returns (ok: bool)
      requires nodes != [] && token.kind.NumberTok? && WellLexed(token)
      modifies this`nodes, this`errors
      ensures match NumberValue(scan, token)
              case Ok(v) => ok && nodes == old(nodes[..|nodes| - 1]) + [v] && errors == old(errors)
              case Err(e) => !ok && nodes == old(nodes) && errors == old(errors) + [ErrorInfo(e, token)]
    {
      var isDouble := false;
      var inspect := 0;
      while inspect != |token.text|
        invariant 0 <= inspect <= |token.text|
        invariant isDouble <==> IsDouble(token.text[..inspect])
        decreases |token.text| - inspect
      {
        ghost var before, after := token.text[..inspect], token.text[..inspect + 1];
        assert forall k :: 0 <= k < |before| ==> before[k] == after[k];
        isDouble := isDouble || IsDoubleMark(token.text[inspect])
                    || (token.text[inspect] == '-' && inspect != 0);
        inspect := inspect + 1;
        assert isDouble <==> IsDouble(after) by {
          if isDouble && !IsDouble(before) {
            assert IsDoubleMark(after[inspect - 1]) || (after[inspect - 1] == '-' && inspect - 1 != 0);
          }
        }
      }
      assert token.text[..inspect] == token.text;
      var decoded := None;
      if !isDouble {
        decoded := DecodeInteger(token.text);
      }
      if decoded.Some? {
        SetCurrentValue(decoded.value);
        return true;
      }
      match DecodeDouble(scan, token.text)
      case Ok(v) =>
        SetCurrentValue(v);
        return true;
      case Err(e) =>
        ok := AddError(e, token);
    }

    method DecodeName(token: Token) returns (ok: bool, decoded: string)
      requires token.kind.StringTok? && WellLexed(token)
      modifies this`errors
      ensures match StringValue(token)
              case Ok(s) => ok && decoded == s && errors == old(errors)
              case Err(e) => !ok && errors == old(errors) + [ErrorInfo(e, token)]
    {
      var result := DecodeStringToken(token.text);
      match result
      case Ok(s) =>
        ok, decoded := true, s;
      case Err(e) =>
        decoded := "";
        ok := AddError(e, token);
    }

    /** One read method's effect: as the grammar says, and the node stack back at its depth. */
    twostate predicate Does(r: Parsed, ok: bool)
      reads this
      requires old(Valid()) && old(nodes) != []
    {
      && Valid() && current >= old(current)
      && ok == r.ok && toks == r.rest
      && nodes == old(nodes[..|nodes| - 1]) + [r.value]
      && errors == old(errors) + r.errors
    }

    method ReadValue() returns (ok: bool)
      requires Valid() && nodes != []
      modifies this`current, this`toks, this`nodes, this`errors
      ensures Does(PValue(scan, old(toks), old(Top())), ok)
      decreases |toks|, 0
    {
      var token := SkipCommentTokens();
      ok := true;
      match token.kind {
        case ObjectBegin => ok := ReadObject();
        case ArrayBegin => ok := ReadArray();
        case NumberTok => ok := DecodeNumberToken(token);
        case StringTok =>
          var decoded;
          ok, decoded := DecodeName(token);
          if ok {
            SetCurrentValue(Str(Chars(CStr(decoded))));
          }
        case TrueTok => SetCurrentValue(Bool(true));
        case FalseTok => SetCurrentValue(Bool(false));
        case NullTok => SetCurrentValue(Null);
        case _ => ok := AddError(VALUE_EXPECTED, token);
      }
    }

    /** Popping the node stack: what was read into the child is what its slot in the
        parent's map now holds. */
    method PopInto(key: Key)
      requires |nodes| >= 2 && (nodes[|nodes| - 2].Obj? || nodes[|nodes| - 2].Arr?)
      modifies this`nodes
      ensures var parent := old(nodes[|nodes| - 2]);
        nodes == old(nodes[..|nodes| - 2]) + [parent.(m := Store(parent.m, key, old(Top())))]
    {
      var child := Top();
      nodes := nodes[..|nodes| - 1];
      var parent := Top();
      SetCurrentValue(parent.(m := Store(parent.m, key, child)));
    }

    /** `Value &value = currentValue()[key]; nodes_.push(&value); readValue(); nodes_.pop()`. */
    method ReadChild(key: Key) returns (ok: bool)
      requires Valid() && nodes != [] && (Top().Obj? || Top().Arr?)
      modifies this`current, this`toks, this`nodes, this`errors
      ensures var parent := old(Top());
        var slot := Slot(parent.m, key);
        var child := PValue(scan, old(toks), Lookup(slot, key).GetOr(Null));
        Does(child.(value := parent.(m := Store(slot, key, child.value))), ok)
      decreases |toks|, 1
    {
      var slot := Slot(Top().m, key);
      SetCurrentValue(Top().(m := slot));
      nodes := nodes + [Lookup(slot, key).GetOr(Null)];
      ok := ReadValue();
      PopInto(key);
    }

    method ReadObject() returns (ok: bool)
      requires Valid() && nodes != []
      modifies this`current, this`toks, this`nodes, this`errors
      ensures Does(PMembers(scan, old(toks), "", End), ok)
      ensures ok <==> exists d :: AreMembers(scan, d, "") && MembersYield(d) <= old(toks)
      decreases |toks|, 3
    {
      MembersIffTree(scan, toks);
      ghost var outer := nodes[..|nodes| - 1];
      SetCurrentValue(Obj(End));
      var name := "";
      var done := false;
      ok := true;
      while !done
        invariant |nodes| == |outer| + 1 && nodes[..|outer|] == outer
        invariant Valid() && current >= old(current)
        invariant done ==> Does(PMembers(scan, old(toks), "", End), ok)
        invariant !done ==> Top().Obj? && |toks| <= old(|toks|) && errors == old(errors)
        invariant !done ==> PMembers(scan, toks, name, Top().m) == PMembers(scan, old(toks), "", End)
        decreases !done, |toks|
      {
        done, ok, name := ReadMember(name);
      }
    }

    /** One round of the loop of `readObject`, up to the colon; `done` when it ends the loop. */
    method ReadName(last: string) returns (done: bool, ok: bool, name: string)
      requires Valid() && nodes != [] && Top().Obj?
      modifies this`current, this`toks, this`nodes, this`errors
      ensures done ==> Does(PMembers(scan, old(toks), last, old(Top()).m), ok)
      ensures !done ==> Valid() && current >= old(current) && |toks| < old(|toks|)
      ensures !done ==> nodes == old(nodes) && errors == old(errors)
      ensures !done ==> PMember(scan, toks, name, Slot(Top().m, Name(CStr(name))))
                        == PMembers(scan, old(toks), last, old(Top()).m)
    {
      var tokenName := SkipCommentTokens();
      name := last;
      done := true;
      if tokenName.kind.ObjectEnd? && name == "" {
        ok := true;
        return;
      }
      if !tokenName.kind.StringTok? {
        ok := AddErrorAndRecover(NAME_EXPECTED, tokenName, ObjectEnd);
        return;
      }
      ok, name := DecodeName(tokenName);
      if !ok {
        ok := RecoverFromError(ObjectEnd);
        return;
      }
      var colon := ReadToken();
      if !colon.kind.Colon? {
        ok := AddErrorAndRecover(COLON_EXPECTED, colon, ObjectEnd);
        return;
      }
      done := false;
    }

    /** The rest of the round: the member's value and the token after it. */
    method ReadMember(last: string) returns (done: bool, ok: bool, name: string)
      requires Valid() && nodes != [] && Top().Obj?
      modifies this`current, this`toks, this`nodes, this`errors
      ensures done ==> Does(PMembers(scan, old(toks), last, old(Top()).m), ok)
      ensures !done ==> Valid() && current >= old(current) && errors == old(errors)
      ensures !done ==> |nodes| == old(|nodes|) && nodes[..|nodes| - 1] == old(nodes[..|nodes| - 1]) && Top().Obj?
      ensures !done ==> |toks| < old(|toks|)
      ensures !done ==> PMembers(scan, toks, name, Top().m) == PMembers(scan, old(toks), last, old(Top()).m)
      decreases |toks|, 2
    {
      done, ok, name := ReadName(last);
      if done {
        return;
      }
      done, ok := ReadMemberValue(name);
    }

    /** The member's value and the token after it. */
    method ReadMemberValue(name: string) returns (done: bool, ok: bool)
      requires Valid() && nodes != [] && Top().Obj?
      modifies this`current, this`toks, this`nodes, this`errors
      ensures done ==> Does(PMember(scan, old(toks), name, Slot(old(Top()).m, Name(CStr(name)))), ok)
      ensures !done ==> Valid() && current >= old(current) && errors == old(errors)
      ensures !done ==> |nodes| == old(|nodes|) && nodes[..|nodes| - 1] == old(nodes[..|nodes| - 1]) && Top().Obj?
      ensures !done ==> |toks| < old(|toks|)
      ensures !done ==> PMembers(scan, toks, name, Top().m)
                        == PMember(scan, old(toks), name, Slot(old(Top()).m, Name(CStr(name))))
      decreases |toks|, 2
    {
      done := true;
      ok := ReadChild(Name(CStr(name)));
      if !ok {
        ok := RecoverFromError(ObjectEnd);
        return;
      }
      var comma := ReadToken();
      if !comma.kind.ObjectEnd? && !comma.kind.Comma? && !comma.kind.CommentTok? {
        ok := AddErrorAndRecover(COMMA_OR_BRACE, comma, ObjectEnd);
        return;
      }
      comma := PastComments(comma);
      done := comma.kind.ObjectEnd?;
    }

    method ReadArray() returns (ok: bool)
      requires Valid() && nodes != []
      modifies this`current, this`toks, this`nodes, this`errors
      ensures Does(if Head(old(toks)).kind.ArrayEnd? then Parsed(true, Arr(End), Tail(old(toks)), [])
                   else PItems(scan, old(toks), 0, End), ok)
      decreases |toks|, 2
    {
      ghost var outer := nodes[..|nodes| - 1];
      SetCurrentValue(Arr(End));
      SkipToToken();
      if Peek() == ']' {
        var _ := ReadToken();
        return true;
      }
      ghost var result := PItems(scan, toks, 0, End);
      var index := 0;
      while true
        invariant Valid() && current >= old(current) && |toks| <= old(|toks|)
        invariant |nodes| == |outer| + 1 && nodes[..|outer|] == outer && Top().Arr?
        invariant errors == old(errors)
        invariant PItems(scan, toks, index, Top().m) == result
        decreases |toks|
      {
        ok := ReadChild(Index(index));
        index := index + 1;
        if !ok {
          ok := RecoverFromError(ArrayEnd);
          return;
        }
        var token := ReadToken();
        if !token.kind.Comma? && !token.kind.ArrayEnd? {
          ok := AddErrorAndRecover(COMMA_OR_BRACKET, token, ArrayEnd);
          return;
        }
        if token.kind.ArrayEnd? {
          break;
        }
      }
      return true;
    }

    /** `skipSpaces` before the look at `*current_`: the tokens left stay the same. */
    method SkipToToken()
      requires Valid()
      modifies this`current
      ensures Valid() && current >= old(current)
      ensures Peek() == ']' <==> Head(toks).kind.ArrayEnd?
    {
      ghost var left := Left();
      assert toks == Lex(left);
      SkipSpaces();
      assert Left() == left[SpaceLen(left)..];
      SpacesSkipped(left, Left());
      if Left() != [] {
        BracketAhead(Left());
      }
    }

    /** `Reader::parse`: terminates on every document with the cursor inside it and the node
        stack back at the root alone; false with one error, or true with none. */
    method Parse(text: string, root: Value) returns (successful: bool, value: Value)
      modifies this
      ensures Valid() && document == text
      ensures var r := ParseText(scan, text, root); successful == r.ok && value == r.value && errors == r.errors
      ensures successful <==> exists d :: IsValue(scan, d) && Yield(d) <= Lex(text)
      ensures forall d :: IsValue(scan, d) && Yield(d) <= Lex(text) ==> value == Meaning(scan, d)
      ensures nodes == [value]
      ensures successful ==> errors == []
      ensures !successful ==> |errors| == 1
      ensures WF(root) ==> WF(value)
    {
      document := text;
      current := 0;
      errors := [];
      toks := Lex(text);
      assert Left() == text;
      while nodes != []
        decreases |nodes|
        modifies this`nodes
      {
        nodes := nodes[..|nodes| - 1];
      }
      nodes := nodes + [root];
      successful := ReadValue();
      var _ := SkipCommentTokens();
      value := Top();
      AcceptedIffTree(scan, Lex(text), root);
      if WF(root) {
        ValueReadIsWellFormed(scan, Lex(text), root);
      }
    }
  }
}
