/** `StyledWriter` and `StyledStreamWriter` (depend/json/json_writer.cpp): two pretty printers that
    share all their code but how a line is indented, and that choose each array's layout by first
    rendering its children into a scratch list. */
module JsonStyledWriter {
  import opened Basics
  import opened JsonValues
  import opened JsonText
  import opened JsonLexer
  import opened JsonRoundTrip
  import opened JsonWriters

  const RIGHT_MARGIN := 74

  /** A value rendered as one piece: a scalar or an empty container. */
  predicate Flat(v: Value) {
    (v.Arr? || v.Obj?) ==> v.m.End?
  }

  function FlatText(show: real -> string, v: Value): string {
    if v.Arr? then "[]" else if v.Obj? then "{}" else ScalarText(show, v)
  }

  lemma FlatLexes(show: real -> string, v: Value)
    requires ShowsNumbers(show) && Writable(v) && Flat(v)
    ensures Lexes(FlatText(show, v), Tokens(show, v)) && FlatText(show, v) != []
  {
    if v.Arr? || v.Obj? {
      MarksLex();
      if v.Arr? {
        Join("[", [Token(ArrayBegin, "[")], "]", [Token(ArrayEnd, "]")]);
        assert "[" + "]" == "[]";
        assert [Token(ArrayBegin, "[")] + [Token(ArrayEnd, "]")] == Tokens(show, v);
      } else {
        Join("{", [Token(ObjectBegin, "{")], "}", [Token(ObjectEnd, "}")]);
        assert "{" + "}" == "{}";
        assert [Token(ObjectBegin, "{")] + [Token(ObjectEnd, "}")] == Tokens(show, v);
      }
    } else {
      ScalarLexes(show, v);
      if v.Int? || v.UInt? {
        IntTextDecodes(_ => None, if v.Int? then v.i else v.u);
      } else if v.Real? {
        assert NumberLexeme(show(v.r));
      }
    }
  }

  /** A text after which any value may be written. */
  predicate Open(d: string) {
    d == "" || !NumChar(d[|d| - 1])
  }

  lemma SpacedMark(pre: string, mark: string, kind: TokenType, post: string)
    requires AllSpaces(pre) && AllSpaces(post) && |mark| == 1 && MarkKind(mark[0]) == kind && kind != ErrorTok
    ensures Lexes(pre + mark + post, [Token(kind, mark)])
  {
    MarkLexes(mark, kind);
    SpacesLex(pre);
    SpacesLex(post);
    assert Seam(pre, mark);
    Join(pre, [], mark, [Token(kind, mark)]);
    Join(pre + mark, [] + [Token(kind, mark)], post, []);
    assert [] + [Token(kind, mark)] + [] == [Token(kind, mark)];
  }

  /** The tokens of the items from `index` on, as an index loop writes them. */
  ghost function ItemsLeft(show: real -> string, m: Entries, index: int): seq<Token>
    requires WFItems(m, 0) && 0 <= index
    decreases ArraySize(m) - index, 0
  {
    if index >= ArraySize(m) then []
    else
      assert WF(At(m, index)) by { ItemFacts(m, index); }
      Tokens(show, At(m, index)) + ItemsRest(show, m, index + 1)
  }

  /** The same with the separator first. */
  ghost function ItemsRest(show: real -> string, m: Entries, index: int): seq<Token>
    requires WFItems(m, 0) && 0 <= index
    decreases ArraySize(m) - index, 1
  {
    if index >= ArraySize(m) || index == 0 then ItemsLeft(show, m, index)
    else [Token(Comma, ",")] + ItemsLeft(show, m, index)
  }

  /** The index loops write exactly the tokens of the array's items. */
  lemma {:induction false} ItemsLeftIsTokens(show: real -> string, m: Entries, index: int)
    requires WFItems(m, 0) && 0 <= index < ArraySize(m)
    ensures WFItems(From(m, index), index) && From(m, index).Entry?
    ensures ItemsLeft(show, m, index) == ItemTokens(show, From(m, index), index)
    decreases ArraySize(m) - index
  {
    IndexStep(m, 0, index);
    IndexStep(m, 0, index + 1);
    if index + 1 < ArraySize(m) {
      ItemsLeftIsTokens(show, m, index + 1);
    } else {
      assert ItemsRest(show, m, index + 1) == ItemsLeft(show, m, index + 1) == [];
    }
  }

  lemma ArrayTokens(show: real -> string, m: Entries, before: seq<Token>)
    requires WFItems(m, 0) && m.Entry?
    ensures before + [Token(ArrayBegin, "[")] + ItemsLeft(show, m, 0) + [Token(ArrayEnd, "]")]
         == before + Tokens(show, Arr(m))
  {
    NonEmptySize(m);
    ItemsLeftIsTokens(show, m, 0);
    BeyondFrom(m, 0, 0);
    EnclosedTokens(before, Token(ArrayBegin, "["), ItemsLeft(show, m, 0), Token(ArrayEnd, "]"));
  }

  lemma EnclosedTokens(before: seq<Token>, open: Token, items: seq<Token>, close: Token)
    ensures before + [open] + items + [close] == before + ([open] + items + [close])
  {
  }

  lemma OpenBracketLexes()
    ensures Lexes("[ ", [Token(ArrayBegin, "[")])
  {
    SpacedMark("", "[", ArrayBegin, " ");
    assert "" + "[" + " " == "[ ";
  }

  lemma CloseBracketLexes()
    ensures Lexes(" ]", [Token(ArrayEnd, "]")])
  {
    SpacedMark(" ", "]", ArrayEnd, "");
    assert " " + "]" + "" == " ]";
  }

  lemma SpacedColonLexes()
    ensures Lexes(" : ", [Token(Colon, ":")])
  {
    SpacedMark(" ", ":", Colon, " ");
    assert " " + ":" + " " == " : ";
  }

  /** The length of the line that holds the first `n` of the array's items, with its brackets and
      all its commas. */
  function LineLength(show: real -> string, m: Entries, n: int): int {
    if n <= 0 then 4 + (ArraySize(m) - 1) * 2
    else LineLength(show, m, n - 1) + |FlatText(show, At(m, n - 1))|
  }

  /** Few items, none of them a container with something in it, and a short line. */
  predicate FitsOneLine(show: real -> string, m: Entries) {
    && ArraySize(m) * 3 < RIGHT_MARGIN
    && (forall i :: 0 <= i < ArraySize(m) ==> Flat(At(m, i)))
    && LineLength(show, m, ArraySize(m)) < RIGHT_MARGIN
  }

  /** The first `n` items side by side. */
  function Listing(show: real -> string, m: Entries, n: int): string {
    if n <= 0 then ""
    else Listing(show, m, n - 1) + (if n == 1 then "" else ", ") + FlatText(show, At(m, n - 1))
  }

  lemma {:induction false} ListingLength(show: real -> string, m: Entries, n: int)
    requires n >= 1
    ensures LineLength(show, m, n) - LineLength(show, m, 0) + 2 * (n - 1) == |Listing(show, m, n)|
  {
    if n > 1 {
      ListingLength(show, m, n - 1);
    }
  }

  /** An array goes on one line if and only if it has fewer than 25 items, none of them a container with
      something in it, and the line is shorter than 74 characters. */
  lemma OneLineIff(show: real -> string, m: Entries)
    requires WFItems(m, 0) && m.Entry?
    ensures FitsOneLine(show, m) <==>
      && ArraySize(m) < 25
      && (forall i :: 0 <= i < ArraySize(m) ==> (At(m, i).Arr? || At(m, i).Obj? ==> At(m, i).m == End))
      && |"[ " + Listing(show, m, ArraySize(m)) + " ]"| < 74
  {
    NonEmptySize(m);
    ListingLength(show, m, ArraySize(m));
  }

  class StyledWriter {
    const show: real -> string
    const indentation: string           // three spaces, or the stream writer's parameter
    const stream: bool                  // StyledStreamWriter: always a new line
    var document: string
    var childValues: seq<string>
    var indentString: string
    var addChildValues: bool
    ghost var written: seq<Token>       // the tokens of `document`

    ghost predicate Valid()
      reads this`document, this`written, this`indentString
    {
      && ShowsNumbers(show) && AllSpaces(indentation) && AllSpaces(indentString)
      && Lexes(document, written)
    }

    constructor (show: real -> string)
      requires ShowsNumbers(show)
      ensures Valid() && this.show == show && !stream
    {
      this.show := show;
      indentation := "   ";
      stream := false;
      document, childValues, indentString, addChildValues, written := "", [], "", false, [];
      new;
      SpacesLex("");
    }

    constructor Stream(show: real -> string, indentation: string)
      requires ShowsNumbers(show) && AllSpaces(indentation)
      ensures Valid() && this.show == show && stream
    {
      this.show := show;
      this.indentation := indentation;
      stream := true;
      document, childValues, indentString, addChildValues, written := "", [], "", false, [];
      new;
      SpacesLex("");
    }

    /** `document_ += text`. */
    method Put(text: string, ghost ts: seq<Token>)
      requires Valid() && Lexes(text, ts) && Seam(document, text)
      modifies this`document, this`written
      ensures Valid() && document == old(document) + text && written == old(written) + ts
    {
      Join(document, written, text, ts);
      document := document + text;
      written := written + ts;
    }

    /** A piece of punctuation, spaces included, after which a value may follow. */
    method PutMark(text: string, ghost t: Token)
      requires Valid() && Lexes(text, [t])
      requires text != [] && !NumChar(text[0]) && !NumChar(text[|text| - 1])
      modifies this`document, this`written
      ensures Valid() && Open(document) && written == old(written) + [t]
    {
      Put(text, [t]);
    }

    method PushValue(value: string, ghost ts: seq<Token>)
      requires Valid() && Lexes(value, ts)
      requires !addChildValues ==> Open(document)
      modifies this`document, this`written, this`childValues
      ensures Valid()
      ensures addChildValues ==>
        childValues == old(childValues) + [value] && document == old(document) && written == old(written)
      ensures !addChildValues ==> written == old(written) + ts && childValues == old(childValues)
    {
      if addChildValues {
        childValues := childValues + [value];
      } else {
        Put(value, ts);
      }
    }

    method WriteIndent()
      requires Valid()
      modifies this`document, this`written
      ensures Valid() && Open(document) && written == old(written)
    {
      SpacesLex("\n");
      SpacesLex(indentString);
      if !stream && document != "" {
        var last := document[|document| - 1];
        if last == ' ' {
          return;
        }
        if last != '\n' {
          Put("\n", []);
        }
      } else if stream {
        Put("\n", []);
      }
      assert Open(document);
      Put(indentString, []);
    }

    method WriteWithIndent(value: string, ghost ts: seq<Token>)
      requires Valid() && Lexes(value, ts)
      modifies this`document, this`written
      ensures Valid() && written == old(written) + ts
      ensures value != [] && !NumChar(value[|value| - 1]) ==> Open(document)
    {
      WriteIndent();
      Put(value, ts);
    }

    method Indent()
      requires Valid()
      modifies this`indentString
      ensures Valid() && indentString == old(indentString) + indentation
    {
      indentString := indentString + indentation;
    }

    method Unindent()
      requires Valid() && |indentString| >= |indentation|
      modifies this`indentString
      ensures Valid() && indentString == old(indentString)[..|old(indentString)| - |indentation|]
    {
      indentString := indentString[..|indentString| - |indentation|];
    }

    /** In collecting mode exactly one rendering is pushed; otherwise the value's tokens are
        written. Either way the indentation is back where it was, and the scratch list is
        anything when text was written. */
    method WriteValue(value: Value)
      requires Valid() && Writable(value)
      requires if addChildValues then Flat(value) else Open(document)
      modifies this`document, this`written, this`childValues, this`indentString, this`addChildValues
      ensures Valid() && addChildValues == old(addChildValues) && indentString == old(indentString)
      ensures addChildValues ==>
        && childValues == old(childValues) + [FlatText(show, value)]
        && document == old(document) && written == old(written)
      ensures !addChildValues ==> written == old(written) + Tokens(show, value)
      decreases Weight(value), 2
    {
      if value.Arr? {
        WriteArrayValue(value.m);
      } else if value.Obj? {
        if value.m.End? {
          FlatLexes(show, value);
          PushValue("{}", Tokens(show, value));
        } else {
          WriteMembers(value.m);
        }
      } else {
        var text;
        match value {
          case Null => text := "null";
          case Int(i) => text := ValueToStringInt(i);
          case UInt(u) => text := ValueToStringUInt(u);
          case Real(r) => text := show(r);
          case Str(c) => text := ValueToQuotedString(c.s);
          case Bool(b) => text := if b then "true" else "false";
        }
        assert text == FlatText(show, value);
        FlatLexes(show, value);
        PushValue(text, Tokens(show, value));
      }
    }

    /** One member per line; called only for objects with members. */
    method WriteMembers(m: Entries)
      requires Valid() && WFMembers(m) && WritableMap(m) && m.Entry? && !addChildValues
      modifies this`document, this`written, this`childValues, this`indentString, this`addChildValues
      ensures Valid() && !addChildValues && indentString == old(indentString)
      ensures written == old(written) + Tokens(show, Obj(m))
      decreases 1 + MapWeight(m), 0
    {
      var members := MemberNames(m);
      MarksLex();
      WriteWithIndent("{", [Token(ObjectBegin, "{")]);
      ghost var goal := written + MemberTokens(show, m);
      Indent();
      var it := 0;
      ghost var cur := m;
      while true
        invariant Valid() && !addChildValues && indentString == old(indentString) + indentation
        invariant AtMember(m, members, it, cur)
        invariant written + MemberTokens(show, cur) == goal
        decreases |members| - it
      {
        MemberStep(m, members, it, cur);
        var name := members[it];
        WriteMember(name, Lookup(m, Name(name)).GetOr(Null), cur, goal);
        it := it + 1;
        if it == |members| {
          break;
        }
        PutComma(",", MemberTokens(show, cur.rest), goal);
        cur := cur.rest;
      }
      Unindent();
      WriteWithIndent("}", [Token(ObjectEnd, "}")]);
      EnclosedTokens(old(written), Token(ObjectBegin, "{"), MemberTokens(show, m), Token(ObjectEnd, "}"));
    }

    method WriteMember(name: string, child: Value, ghost cur: Entries, ghost goal: seq<Token>)
      requires Valid() && Writable(child) && !addChildValues
      requires cur.Entry? && WFMembers(cur) && cur.key == Name(name) && cur.value == child
      requires written + MemberTokens(show, cur) == goal
      modifies this`document, this`written, this`childValues, this`indentString, this`addChildValues
      ensures Valid() && !addChildValues && indentString == old(indentString)
      ensures cur.rest.End? ==> written == goal
      ensures cur.rest.Entry? ==> written + ([Token(Comma, ",")] + MemberTokens(show, cur.rest)) == goal
      decreases Weight(child), 3
    {
      var text := ValueToQuotedString(name);
      QuoteLexes(name);
      WriteWithIndent(text, [Token(StringTok, Quote(name))]);
      SpacedColonLexes();
      PutMark(" : ", Token(Colon, ":"));
      WriteValue(child);
      MemberDone(old(written), show, cur, written);
    }

    static lemma MemberDone(before: seq<Token>, show: real -> string, cur: Entries, now: seq<Token>)
      requires cur.Entry? && WFMembers(cur)
      requires now == before + [Token(StringTok, Quote(cur.key.s))] + [Token(Colon, ":")] + Tokens(show, cur.value)
      ensures now + (if cur.rest.End? then [] else [Token(Comma, ",")] + MemberTokens(show, cur.rest))
           == before + MemberTokens(show, cur)
    {
      var name, colon := [Token(StringTok, Quote(cur.key.s))], [Token(Colon, ":")];
      var left := if cur.rest.End? then [] else [Token(Comma, ",")] + MemberTokens(show, cur.rest);
      assert MemberTokens(show, cur) == name + colon + Tokens(show, cur.value) + left;
      Associate(before, name, colon);
      Associate(before, name + colon, Tokens(show, cur.value));
      Associate(before, name + colon + Tokens(show, cur.value), left);
    }

    /** A separator, with what is left to write after it. */
    method PutComma(text: string, ghost left: seq<Token>, ghost goal: seq<Token>)
      requires Valid() && written + ([Token(Comma, ",")] + left) == goal
      requires text == "," || text == ", "
      modifies this`document, this`written
      ensures Valid() && Open(document) && written + left == goal
    {
      Associate(written, [Token(Comma, ",")], left);
      SpacedMark("", ",", Comma, "");
      SpacedMark("", ",", Comma, " ");
      assert text == "" + "," + "" || text == "" + "," + " ";
      PutMark(text, Token(Comma, ","));
    }

    /** The scratch list holds exactly one rendering per child. */
    ghost predicate Rendered(m: Entries)
      reads this`childValues
    {
      && |childValues| == ArraySize(m)
      && forall i :: 0 <= i < |childValues| ==> childValues[i] == FlatText(show, At(m, i)) && Flat(At(m, i))
    }

    /** Decides on the layout, and leaves the scratch list empty, or with one rendering per child;
        the latter whenever the array goes on a single line. */
    method IsMultilineArray(m: Entries) returns (isMultiLine: bool)
      requires Valid() && WFItems(m, 0) && WritableMap(m) && m.Entry? && !addChildValues
      modifies this`document, this`written, this`childValues, this`indentString, this`addChildValues
      ensures Valid() && !addChildValues && indentString == old(indentString)
      ensures document == old(document) && written == old(written)
      ensures childValues == [] || Rendered(m)
      ensures !isMultiLine ==> Rendered(m)
      ensures isMultiLine <==> !FitsOneLine(show, m)
      decreases 1 + MapWeight(m), 0
    {
      childValues := [];
      isMultiLine := ManyOrNested(m);
      if !isMultiLine {
        addChildValues := true;
        var lineLength := RenderChildren(m);
        addChildValues := false;
        isMultiLine := lineLength >= RIGHT_MARGIN;
      }
    }

    /** The size, and the loop that looks for a container with something in it. */
    method ManyOrNested(m: Entries) returns (isMultiLine: bool)
      requires WFItems(m, 0) && WritableMap(m) && m.Entry?
      ensures isMultiLine <==>
        ArraySize(m) * 3 >= RIGHT_MARGIN || !forall i :: 0 <= i < ArraySize(m) ==> Flat(At(m, i))
    {
      var size := ArraySize(m);
      isMultiLine := size * 3 >= RIGHT_MARGIN;
      NonEmptySize(m);
      var index := 0;
      while index < size && !isMultiLine
        invariant 0 <= index <= size
        invariant !isMultiLine ==> size * 3 < RIGHT_MARGIN && forall i :: 0 <= i < index ==> Flat(At(m, i))
        invariant isMultiLine ==> size * 3 >= RIGHT_MARGIN || exists i :: 0 <= i < index && !Flat(At(m, i))
      {
        ItemFacts(m, index);
        var child := At(m, index);
        isMultiLine := isMultiLine || ((child.Arr? || child.Obj?) && Size(child) > 0);
        if child.Arr? {
          NonEmptySize(child.m);
        }
        index := index + 1;
      }
    }

    /** The loop that renders the children and adds up the length of the line. */
    method RenderChildren(m: Entries) returns (lineLength: int)
      requires Valid() && WFItems(m, 0) && WritableMap(m) && m.Entry? && addChildValues && childValues == []
      requires forall i :: 0 <= i < ArraySize(m) ==> Flat(At(m, i))
      modifies this`document, this`written, this`childValues, this`indentString, this`addChildValues
      ensures Valid() && addChildValues && indentString == old(indentString)
      ensures document == old(document) && written == old(written)
      ensures Rendered(m) && lineLength == LineLength(show, m, ArraySize(m))
      decreases MapWeight(m), 3
    {
      var size := ArraySize(m);
      NonEmptySize(m);
      lineLength := 4 + (size - 1) * 2;
      var index := 0;
      while index < size
        invariant Valid() && addChildValues && indentString == old(indentString)
        invariant document == old(document) && written == old(written)
        invariant 0 <= index <= size && |childValues| == index
        invariant forall i :: 0 <= i < index ==> childValues[i] == FlatText(show, At(m, i))
        invariant lineLength == LineLength(show, m, index)
      {
        RenderChild(m, index);
        lineLength := lineLength + |childValues[index]|;
        index := index + 1;
      }
    }

    method RenderChild(m: Entries, index: nat)
      requires Valid() && WFItems(m, 0) && WritableMap(m) && m.Entry? && addChildValues
      requires index < ArraySize(m) && Flat(At(m, index))
      modifies this`document, this`written, this`childValues, this`indentString, this`addChildValues
      ensures Valid() && addChildValues && indentString == old(indentString)
      ensures document == old(document) && written == old(written)
      ensures childValues == old(childValues) + [FlatText(show, At(m, index))]
      decreases MapWeight(m), 2, 0
    {
      ItemFacts(m, index);
      WriteValue(At(m, index));
    }

    method WriteArrayValue(m: Entries)
      requires Valid() && WFItems(m, 0) && WritableMap(m)
      requires if addChildValues then m.End? else Open(document)
      modifies this`document, this`written, this`childValues, this`indentString, this`addChildValues
      ensures Valid() && addChildValues == old(addChildValues) && indentString == old(indentString)
      ensures addChildValues ==>
        && childValues == old(childValues) + [FlatText(show, Arr(m))]
        && document == old(document) && written == old(written)
      ensures !addChildValues ==> written == old(written) + Tokens(show, Arr(m))
      decreases 1 + MapWeight(m), 1
    {
      var size := ArraySize(m);
      NonEmptySize(m);
      if size == 0 {
        FlatLexes(show, Arr(m));
        PushValue("[]", Tokens(show, Arr(m)));
      } else {
        var isArrayMultiLine := IsMultilineArray(m);
        if isArrayMultiLine {
          WriteItemPerLine(m);
        } else {
          WriteSingleLine(m);
        }
      }
    }

    method WriteItemPerLine(m: Entries)
      requires Valid() && WFItems(m, 0) && WritableMap(m) && m.Entry? && !addChildValues
      requires childValues == [] || Rendered(m)
      modifies this`document, this`written, this`childValues, this`indentString, this`addChildValues
      ensures Valid() && !addChildValues && indentString == old(indentString)
      ensures written == old(written) + Tokens(show, Arr(m))
      decreases 1 + MapWeight(m), 0
    {
      MarksLex();
      NonEmptySize(m);
      WriteWithIndent("[", [Token(ArrayBegin, "[")]);
      ghost var goal := written + ItemsLeft(show, m, 0);
      Indent();
      var size := ArraySize(m);
      var hasChildValue := childValues != [];
      var index := 0;
      while true
        invariant Valid() && !addChildValues && indentString == old(indentString) + indentation
        invariant 0 <= index < size
        invariant hasChildValue ==> Rendered(m)
        invariant written + ItemsLeft(show, m, index) == goal
        decreases size - index
      {
        WriteItem(m, index, hasChildValue, goal);
        index := index + 1;
        if index == size {
          break;
        }
        PutComma(",", ItemsLeft(show, m, index), goal);
      }
      Unindent();
      WriteWithIndent("]", [Token(ArrayEnd, "]")]);
      ArrayTokens(show, m, old(written));
    }

    method WriteItem(m: Entries, index: int, hasChildValue: bool, ghost goal: seq<Token>)
      requires Valid() && WFItems(m, 0) && WritableMap(m) && 0 <= index < ArraySize(m) && !addChildValues
      requires hasChildValue ==> Rendered(m)
      requires written + ItemsLeft(show, m, index) == goal
      modifies this`document, this`written, this`childValues, this`indentString, this`addChildValues
      ensures Valid() && !addChildValues && indentString == old(indentString)
      ensures hasChildValue ==> Rendered(m)
      ensures written + ItemsRest(show, m, index + 1) == goal
      ensures index + 1 == ArraySize(m) ==> written == goal
      decreases MapWeight(m), 3
    {
      ItemFacts(m, index);
      var childValue := At(m, index);
      if hasChildValue {
        FlatLexes(show, childValue);
        WriteWithIndent(childValues[index], Tokens(show, childValue));
      } else {
        WriteIndent();
        WriteValue(childValue);
      }
      Associate(old(written), Tokens(show, childValue), ItemsRest(show, m, index + 1));
    }

    method WriteSingleLine(m: Entries)
      requires Valid() && WFItems(m, 0) && WritableMap(m) && m.Entry? && Open(document) && Rendered(m)
      modifies this`document, this`written
      ensures Valid()
      ensures written == old(written) + Tokens(show, Arr(m))
    {
      NonEmptySize(m);
      OpenBracketLexes();
      PutMark("[ ", Token(ArrayBegin, "["));
      ghost var goal := written + ItemsLeft(show, m, 0);
      var size := ArraySize(m);
      var index := 0;
      while index < size
        invariant Valid() && 0 <= index <= size
        invariant index == 0 ==> Open(document)
        invariant written + ItemsRest(show, m, index) == goal
      {
        PutItem(m, index, goal);
        index := index + 1;
      }
      assert written == goal;
      CloseBracketLexes();
      PutMark(" ]", Token(ArrayEnd, "]"));
      ArrayTokens(show, m, old(written));
    }

    method PutItem(m: Entries, index: int, ghost goal: seq<Token>)
      requires Valid() && WFItems(m, 0) && WritableMap(m) && Rendered(m) && 0 <= index < ArraySize(m)
      requires index == 0 ==> Open(document)
      requires written + ItemsRest(show, m, index) == goal
      modifies this`document, this`written
      ensures Valid()
      ensures written + ItemsRest(show, m, index + 1) == goal
    {
      ItemFacts(m, index);
      if index > 0 {
        PutComma(", ", ItemsLeft(show, m, index), goal);
      }
      ghost var before := written;
      FlatLexes(show, At(m, index));
      Put(childValues[index], Tokens(show, At(m, index)));
      Associate(before, Tokens(show, At(m, index)), ItemsRest(show, m, index + 1));
    }

    /** `write`: whatever layout is chosen, the text has exactly the tokens of the value. */
    method Write(root: Value) returns (text: string)
      requires ShowsNumbers(show) && AllSpaces(indentation) && Writable(root)
      modifies this
      ensures LexesTo(text, Tokens(show, root))
      ensures indentString == ""
    {
      document, addChildValues, indentString, written := "", false, "", [];
      SpacesLex("");
      assert Valid() && Open(document);
      WriteValue(root);
      assert written == Tokens(show, root);
      SpacesLex("\n");
      Put("\n", []);
      text := document;
    }
  }
}
