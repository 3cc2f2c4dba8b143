/** The three writers of depend/json/json_writer.cpp as they run: text appended piece by piece,
    and for the styled ones the scratch list of rendered children they share while recursing. */
module JsonWriters {
  import opened Basics
  import opened JsonValues
  import opened JsonText
  import opened JsonLexer
  import opened JsonRoundTrip

  // ---- Walking a map by index and by name ------------------------------------------------

  /** `cur` is what is left of `m` after some of its entries. */
  ghost predicate IsSuffix(cur: Entries, m: Entries) {
    cur == m || (m.Entry? && IsSuffix(cur, m.rest))
  }

  lemma {:induction false} SuffixFacts(cur: Entries, m: Entries)
    requires IsSuffix(cur, m) && cur.Entry?
    ensures IsSuffix(cur.rest, m)
    ensures MapWeight(cur) <= MapWeight(m)
    ensures WritableMap(m) ==> WritableMap(cur)
    ensures WFMembers(m) ==> WFMembers(cur)
    decreases m
  {
    if cur != m {
      SuffixFacts(cur, m.rest);
    }
  }

  /** The names in order: `getMemberNames`. */
  function MemberNames(m: Entries): seq<string>
    requires WFMembers(m)
  {
    match m
    case End => []
    case Entry(k, _, r) => [k.s] + MemberNames(r)
  }

  /** Looking a member up by the name read at its place finds that member. */
  lemma {:induction false} MemberFound(cur: Entries, m: Entries)
    requires WFMembers(m) && IsSuffix(cur, m) && cur.Entry?
    ensures Lookup(m, cur.key) == Some(cur.value)
    ensures cur != m ==> KeyLess(m.key, cur.key)
    decreases m
  {
    if cur != m {
      MemberFound(cur, m.rest);
      SuffixFacts(cur, m.rest);
      if cur != m.rest {
        KeyTransitive(m.key, m.rest.key, cur.key);
      }
      KeyOrder(m.key, cur.key);
    }
  }

  /** The entries of an array from index `next` on. */
  function From(m: Entries, next: int): Entries {
    if m.Entry? && m.key.Index? && m.key.i < next then From(m.rest, next) else m
  }

  /** Walking an array by index: what `value[index]` reads, and what is left afterwards. */
  lemma {:induction false} IndexStep(m: Entries, low: int, next: int)
    requires WFItems(m, low) && 0 <= low <= next
    ensures WFItems(From(m, next), next)
    ensures From(m, next).Entry? <==> next < ArraySize(m)
    ensures From(m, next).Entry? ==> ItemsAfter(From(m, next), next) == From(m, next + 1)
    ensures At(m, next) == if From(m, next).Entry? then ItemAt(From(m, next), next) else Null
    ensures m.Entry? ==> Weight(At(m, next)) <= MapWeight(m)
    ensures WritableMap(m) ==> WritableMap(From(m, next)) && Writable(At(m, next))
    ensures m.Entry? ==> ArraySize(m) > m.key.i
    decreases m
  {
    if m.Entry? {
      IndexStep(m.rest, m.key.i + 1, if m.key.i < next then next else m.key.i + 1);
      if m.key.i >= next {
        BeyondIndex(m.rest, m.key.i + 1, next);
        BeyondFrom(m.rest, m.key.i + 1, next + 1);
      }
    }
  }

  lemma {:induction false} BeyondIndex(m: Entries, low: int, i: int)
    requires WFItems(m, low) && i < low
    ensures Lookup(m, Index(i)).None?
    decreases m
  {
    if m.Entry? {
      BeyondIndex(m.rest, m.key.i + 1, i);
    }
  }

  lemma BeyondFrom(m: Entries, low: int, next: int)
    requires WFItems(m, low) && next <= low
    ensures From(m, next) == m
  {
  }

  lemma Appended(before: string, sep: string, child: string, left: string)
    ensures before + sep + child + left == before + (sep + (child + left))
  {
  }

  /** A member loop stands at `cur`, whose first name is `members[it]`. */
  ghost predicate AtMember(m: Entries, members: seq<string>, it: int, cur: Entries) {
    && IsSuffix(cur, m) && cur.Entry? && WFMembers(cur)
    && 0 <= it < |members| && members[it..] == MemberNames(cur)
  }

  lemma MemberStep(m: Entries, members: seq<string>, it: int, cur: Entries)
    requires WFMembers(m) && WritableMap(m) && AtMember(m, members, it, cur)
    ensures cur.key == Name(members[it]) && Lookup(m, Name(members[it])) == Some(cur.value)
    ensures Writable(cur.value) && Weight(cur.value) < MapWeight(m)
    ensures cur.rest.Entry? <==> it + 1 < |members|
    ensures cur.rest.Entry? ==> AtMember(m, members, it + 1, cur.rest)
  {
    SuffixFacts(cur, m);
    MemberFound(cur, m);
    assert members[it + 1..] == members[it..][1..];
    assert MemberNames(cur) == [cur.key.s] + MemberNames(cur.rest);
    assert |MemberNames(cur.rest)| > 0 <==> cur.rest.Entry?;
  }

  lemma ItemFacts(m: Entries, index: int)
    requires WFItems(m, 0) && 0 <= index < ArraySize(m)
    ensures WF(At(m, index)) && Weight(At(m, index)) <= MapWeight(m)
    ensures WritableMap(m) ==> Writable(At(m, index))
  {
    IndexStep(m, 0, index);
    assert At(m, index) == ItemAt(From(m, index), index);
  }

  lemma NonEmptySize(m: Entries)
    requires WFItems(m, 0)
    ensures ArraySize(m) >= 0 && (ArraySize(m) == 0 <==> m.End?)
  {
    IndexStep(m, 0, 0);
  }

  /** What an index loop still appends for the items from `index` on. */
  ghost function TextLeft(show: real -> string, colon: string, m: Entries, index: int): string
    requires WFItems(m, 0) && 0 <= index
    decreases ArraySize(m) - index, 0
  {
    if index >= ArraySize(m) then ""
    else
      assert WF(At(m, index)) by { ItemFacts(m, index); }
      Compact(show, colon, At(m, index)) + TextRest(show, colon, m, index + 1)
  }

  /** The same with the separator first. */
  ghost function TextRest(show: real -> string, colon: string, m: Entries, index: int): string
    requires WFItems(m, 0) && 0 <= index
    decreases ArraySize(m) - index, 1
  {
    if index >= ArraySize(m) || index == 0 then TextLeft(show, colon, m, index)
    else "," + TextLeft(show, colon, m, index)
  }

  /** The index loop appends exactly the compact text of the items. */
  lemma {:induction false} TextLeftIsCompact(show: real -> string, colon: string, m: Entries, index: int)
    requires WFItems(m, 0) && 0 <= index < ArraySize(m)
    ensures WFItems(From(m, index), index) && From(m, index).Entry?
    ensures TextLeft(show, colon, m, index) == CompactItems(show, colon, From(m, index), index)
    decreases ArraySize(m) - index
  {
    IndexStep(m, 0, index);
    IndexStep(m, 0, index + 1);
    if index + 1 < ArraySize(m) {
      TextLeftIsCompact(show, colon, m, index + 1);
    } else {
      assert TextRest(show, colon, m, index + 1) == TextLeft(show, colon, m, index + 1) == "";
    }
  }

  lemma ArrayText(show: real -> string, colon: string, m: Entries, before: string)
    requires WFItems(m, 0)
    ensures before + "[" + TextLeft(show, colon, m, 0) + "]" == before + Compact(show, colon, Arr(m))
  {
    NonEmptySize(m);
    if m.Entry? {
      TextLeftIsCompact(show, colon, m, 0);
      BeyondFrom(m, 0, 0);
    }
    assert Compact(show, colon, Arr(m)) == "[" + TextLeft(show, colon, m, 0) + "]";
    Enclosed(before, "[", TextLeft(show, colon, m, 0), "]");
  }

  /** The same for members. */
  ghost function RestMembers(show: real -> string, colon: string, cur: Entries, first: bool): string
    requires WFMembers(cur)
  {
    if cur.End? then "" else (if first then "" else ",") + CompactMembers(show, colon, cur)
  }

  lemma ObjectText(show: real -> string, colon: string, m: Entries, before: string)
    requires WFMembers(m)
    ensures before + "{" + RestMembers(show, colon, m, true) + "}" == before + Compact(show, colon, Obj(m))
  {
    assert Compact(show, colon, Obj(m)) == "{" + RestMembers(show, colon, m, true) + "}";
    Enclosed(before, "{", RestMembers(show, colon, m, true), "}");
  }

  lemma MemberAppended(show: real -> string, colon: string, cur: Entries, first: bool, before: string, now: string)
    requires cur.Entry? && WFMembers(cur)
    requires now == before + (if first then "" else ",") + Quote(cur.key.s) + colon + Compact(show, colon, cur.value)
    ensures now + RestMembers(show, colon, cur.rest, false) == before + RestMembers(show, colon, cur, first)
  {
    var sep := if first then "" else ",";
    var value := Compact(show, colon, cur.value);
    Appended(before + sep, Quote(cur.key.s), colon, value);
    Appended(before, sep, Quote(cur.key.s) + colon + value, RestMembers(show, colon, cur.rest, false));
    assert before + sep + (Quote(cur.key.s) + (colon + value)) == before + sep + (Quote(cur.key.s) + colon + value);
  }

  lemma Enclosed(before: string, open: string, text: string, close: string)
    ensures before + open + text + close == before + (open + text + close)
  {
  }

  // ---- FastWriter --------------------------------------------------------------------------

  class FastWriter {
    const show: real -> string          // sprintf "%.10f", trailing zeros removed
    var yamlCompatibilityEnabled: bool
    var document: string

    constructor (show: real -> string)
      ensures this.show == show && !yamlCompatibilityEnabled
    {
      this.show := show;
      yamlCompatibilityEnabled := false;
      document := "";
    }

    method EnableYAMLCompatibility()
      modifies this`yamlCompatibilityEnabled
      ensures yamlCompatibilityEnabled
    {
      yamlCompatibilityEnabled := true;
    }

    function ColonText(): string
      reads this`yamlCompatibilityEnabled
    {
      if yamlCompatibilityEnabled then ": " else ":"
    }

    method WriteValue(value: Value)
      requires Writable(value)
      modifies this`document
      ensures document == old(document) + Compact(show, ColonText(), value)
      decreases Weight(value), 1
    {
      match value {
        case Null => document := document + "null";
        case Int(i) =>
          var text := ValueToStringInt(i);
          document := document + text;
        case UInt(u) =>
          var text := ValueToStringUInt(u);
          document := document + text;
        case Real(r) => document := document + show(r);
        case Str(c) =>
          var text := ValueToQuotedString(c.s);
          document := document + text;
        case Bool(b) => document := document + (if b then "true" else "false");
        case Arr(m) => WriteItems(m);
        case Obj(m) => WriteMembers(m);
      }
    }

    method WriteItems(m: Entries)
      requires WFItems(m, 0) && WritableMap(m)
      modifies this`document
      ensures document == old(document) + Compact(show, ColonText(), Arr(m))
      decreases 1 + MapWeight(m), 0
    {
      ghost var colon := ColonText();
      ghost var goal := document + "[" + TextLeft(show, colon, m, 0);
      NonEmptySize(m);
      document := document + "[";
      var size := ArraySize(m);
      var index := 0;
      while index < size
        invariant 0 <= index <= size
        invariant document + TextRest(show, colon, m, index) == goal
      {
        ghost var before := document;
        ItemFacts(m, index);
        if index > 0 {
          document := document + ",";
        }
        WriteValue(At(m, index));
        Appended(before, if index > 0 then "," else "", Compact(show, colon, At(m, index)),
                 TextRest(show, colon, m, index + 1));
        index := index + 1;
      }
      assert document == goal;
      document := document + "]";
      ArrayText(show, colon, m, old(document));
    }

    method WriteMembers(m: Entries)
      requires WFMembers(m) && WritableMap(m)
      modifies this`document
      ensures document == old(document) + Compact(show, ColonText(), Obj(m))
      decreases 1 + MapWeight(m), 0
    {
      ghost var colon := ColonText();
      ghost var goal := document + "{" + RestMembers(show, colon, m, true);
      var members := MemberNames(m);
      document := document + "{";
      var it := 0;
      ghost var cur := m;
      while it != |members|
        invariant 0 <= it <= |members| && WFMembers(cur) && (cur.Entry? <==> it < |members|)
        invariant cur.Entry? ==> AtMember(m, members, it, cur)
        invariant document + RestMembers(show, colon, cur, it == 0) == goal
        decreases |members| - it
      {
        MemberStep(m, members, it, cur);
        ghost var before := document;
        var name := members[it];
        WriteMember(name, Lookup(m, Name(name)).GetOr(Null), it == 0);
        MemberAppended(show, colon, cur, it == 0, before, document);
        cur := cur.rest;
        it := it + 1;
      }
      assert document == goal;
      document := document + "}";
      ObjectText(show, colon, m, old(document));
    }

    method WriteMember(name: string, child: Value, first: bool)
      requires Writable(child)
      modifies this`document
      ensures document == old(document) + (if first then "" else ",") + Quote(name) + ColonText()
                          + Compact(show, ColonText(), child)
      decreases Weight(child), 2
    {
      if !first {
        document := document + ",";
      }
      var text := ValueToQuotedString(name);
      document := document + text;
      document := document + ColonText();
      WriteValue(child);
    }

    method Write(root: Value) returns (text: string)
      requires Writable(root)
      modifies this`document
      ensures text == FastText(show, ColonText(), root)
    {
      document := "";
      WriteValue(root);
      document := document + "\n";
      text := document;
    }
  }
}
