/** Which token sequences are JSON values to this reader, as concrete syntax trees: the grammar of
    sections 4 to 7 of RFC 8259, widened where the reader is laxer, what such a tree means, and that
    the reader accepts exactly the sequences that begin with the yield of one. */
module JsonSyntax {
  import opened Basics
  import opened JsonValues
  import opened JsonText
  import opened JsonLexer
  import opened JsonGrammar

  // ---- Trees ------------------------------------------------------------------------------------

  /** `lead` and `gap` are the comments in front of a token. */
  datatype Syntax =
    | Scalar(lead: seq<Token>, token: Token)
    | EmptyArray(lead: seq<Token>, open: Token, close: Token)
    | Array(lead: seq<Token>, open: Token, items: Items)
    | Object(lead: seq<Token>, open: Token, members: Members)

  datatype Items =
    | LastItem(item: Syntax, close: Token)
    | NextItem(item: Syntax, comma: Token, items: Items)

  datatype Members =
    | Closed(lead: seq<Token>, close: Token)
    | LastMember(lead: seq<Token>, name: Token, colon: Token, value: Syntax, gap: seq<Token>, close: Token)
    | NextMember(lead: seq<Token>, name: Token, colon: Token, value: Syntax, gap: seq<Token>, comma: Token,
                 members: Members)

  /** The tokens of a tree, from left to right. */
  function Yield(d: Syntax): (ts: seq<Token>)
    ensures ts != []
  {
    match d
    case Scalar(lead, token) => lead + [token]
    case EmptyArray(lead, open, close) => lead + [open, close]
    case Array(lead, open, items) => lead + [open] + ItemsYield(items)
    case Object(lead, open, members) => lead + [open] + MembersYield(members)
  }

  function ItemsYield(items: Items): (ts: seq<Token>)
    ensures ts != []
  {
    match items
    case LastItem(item, close) => Yield(item) + [close]
    case NextItem(item, comma, more) => Yield(item) + [comma] + ItemsYield(more)
  }

  function MembersYield(members: Members): (ts: seq<Token>)
    ensures ts != []
  {
    match members
    case Closed(lead, close) => lead + [close]
    case LastMember(lead, name, colon, value, gap, close) => lead + [name, colon] + Yield(value) + gap + [close]
    case NextMember(lead, name, colon, value, gap, comma, more) =>
      lead + [name, colon] + Yield(value) + gap + [comma] + MembersYield(more)
  }

  predicate Comments(ts: seq<Token>) {
    forall k :: 0 <= k < |ts| ==> ts[k].kind.CommentTok?
  }

  predicate IsName(name: Token) {
    name.kind.StringTok? && StringValue(name).Ok?
  }

  /** `true`, `false`, `null`, or a string or number that decodes. */
  predicate IsScalar(scan: string -> Option<real>, t: Token) {
    || t.kind.TrueTok? || t.kind.FalseTok? || t.kind.NullTok? || IsName(t)
    || (t.kind.NumberTok? && NumberValue(scan, t).Ok?)
  }

  /** A value to this reader. Comments may stand in front of a value, of a member's name and of what
      follows a member's value, and nowhere else. */
  predicate IsValue(scan: string -> Option<real>, d: Syntax) {
    match d
    case Scalar(lead, token) => Comments(lead) && IsScalar(scan, token)
    case EmptyArray(lead, open, close) => Comments(lead) && open.kind.ArrayBegin? && close.kind.ArrayEnd?
    case Array(lead, open, items) => Comments(lead) && open.kind.ArrayBegin? && AreItems(scan, items)
    case Object(lead, open, members) => Comments(lead) && open.kind.ObjectBegin? && AreMembers(scan, members, "")
  }

  predicate AreItems(scan: string -> Option<real>, items: Items) {
    match items
    case LastItem(item, close) => IsValue(scan, item) && close.kind.ArrayEnd?
    case NextItem(item, comma, more) => IsValue(scan, item) && comma.kind.Comma? && AreItems(scan, more)
  }

  /** Members after one named `last`, which is empty at the start. A closing brace may follow an empty
      name and its comma; and after comments any token but a closing brace stands in for the comma. */
  predicate AreMembers(scan: string -> Option<real>, members: Members, last: string) {
    match members
    case Closed(lead, close) => Comments(lead) && close.kind.ObjectEnd? && last == ""
    case LastMember(lead, name, colon, value, gap, close) =>
      && Comments(lead) && IsName(name) && colon.kind.Colon? && IsValue(scan, value)
      && Comments(gap) && close.kind.ObjectEnd?
    case NextMember(lead, name, colon, value, gap, comma, more) =>
      && Comments(lead) && IsName(name) && colon.kind.Colon? && IsValue(scan, value)
      && Comments(gap) && (if gap == [] then comma.kind.Comma? else !comma.kind.ObjectEnd? && !comma.kind.CommentTok?)
      && AreMembers(scan, more, StringValue(name).value)
  }

  // ---- Meanings -------------------------------------------------------------------------------------

  function ScalarMeaning(scan: string -> Option<real>, t: Token): Value
    requires IsScalar(scan, t)
  {
    match t.kind
    case TrueTok => Bool(true)
    case FalseTok => Bool(false)
    case NullTok => Null
    case StringTok => Str(Chars(CStr(StringValue(t).value)))
    case _ => NumberValue(scan, t).value
  }

  /** The value of a tree; a member stored later replaces an earlier one of its name. */
  function Meaning(scan: string -> Option<real>, d: Syntax): Value
    requires IsValue(scan, d)
  {
    match d
    case Scalar(_, token) => ScalarMeaning(scan, token)
    case EmptyArray(_, _, _) => Arr(End)
    case Array(_, _, items) => Arr(ItemsMeaning(scan, items, 0, End))
    case Object(_, _, members) => Obj(MembersMeaning(scan, members, "", End))
  }

  function ItemsMeaning(scan: string -> Option<real>, items: Items, index: int, m: Entries): Entries
    requires AreItems(scan, items)
    decreases items
  {
    match items
    case LastItem(item, _) => Store(m, Index(index), Meaning(scan, item))
    case NextItem(item, _, more) =>
      ItemsMeaning(scan, more, index + 1, Store(m, Index(index), Meaning(scan, item)))
  }

  function MembersMeaning(scan: string -> Option<real>, members: Members, last: string, m: Entries): Entries
    requires AreMembers(scan, members, last)
    decreases members
  {
    match members
    case Closed(_, _) => m
    case LastMember(_, name, _, value, _, _) =>
      Store(m, Name(CStr(StringValue(name).value)), Meaning(scan, value))
    case NextMember(_, name, _, value, _, _, more) =>
      MembersMeaning(scan, more, StringValue(name).value,
                     Store(m, Name(CStr(StringValue(name).value)), Meaning(scan, value)))
  }

  // ---- Every tree is accepted ---------------------------------------------------------------------

  lemma {:induction false} PastLead(lead: seq<Token>, ts: seq<Token>)
    requires Comments(lead)
    ensures DropComments(lead + ts) == DropComments(ts)
  {
    if lead == [] {
      assert lead + ts == ts;
    } else {
      assert (lead + ts)[1..] == lead[1..] + ts;
      PastLead(lead[1..], ts);
    }
  }

  /** What is in front of the reader once the comments are passed. */
  lemma Front(lead: seq<Token>, t: Token, rest: seq<Token>)
    requires Comments(lead) && !t.kind.CommentTok?
    ensures DropComments(lead + [t] + rest) == [t] + rest
    ensures Head([t] + rest) == t && Tail([t] + rest) == rest
  {
    assert lead + [t] + rest == lead + ([t] + rest);
    PastLead(lead, [t] + rest);
  }

  /** A slot that is filled at once need not be made first. */
  lemma {:induction false} SlotThenStore(m: Entries, k: Key, v: Value)
    ensures Store(Slot(m, k), k, v) == Store(m, k, v)
    decreases m
  {
    if Lookup(m, k).None? {
      StoreTwice(m, k, Null, v);
    }
  }

  lemma {:induction false} StoreTwice(m: Entries, k: Key, v: Value, w: Value)
    ensures Store(Store(m, k, v), k, w) == Store(m, k, w)
    decreases m
  {
    if m.Entry? {
      StoreTwice(m.rest, k, v, w);
    }
  }

  /** No value begins with a closing bracket. */
  lemma ValueStarts(scan: string -> Option<real>, d: Syntax, rest: seq<Token>)
    requires IsValue(scan, d)
    ensures !Head(Yield(d) + rest).kind.ArrayEnd?
  {
    if d.lead != [] {
      assert (Yield(d) + rest)[0] == d.lead[0];
    }
  }

  lemma ItemsStart(scan: string -> Option<real>, items: Items, rest: seq<Token>)
    requires AreItems(scan, items)
    ensures !Head(ItemsYield(items) + rest).kind.ArrayEnd?
  {
    ValueStarts(scan, items.item, []);
    assert (ItemsYield(items) + rest)[0] == Yield(items.item)[0] == (Yield(items.item) + [])[0];
  }

  /** The reader reads a tree as what it means, and stops at its end, whatever follows. */
  lemma {:induction false} ValueAccepted(scan: string -> Option<real>, d: Syntax, rest: seq<Token>, cur: Value)
    requires IsValue(scan, d)
    ensures PValue(scan, Yield(d) + rest, cur) == Parsed(true, Meaning(scan, d), rest, [])
    decreases d
  {
    match d
    case Scalar(lead, token) => Front(lead, token, rest);
    case EmptyArray(lead, open, close) =>
      assert lead + [open, close] + rest == lead + [open] + ([close] + rest);
      Front(lead, open, [close] + rest);
    case Array(lead, open, items) =>
      assert lead + [open] + ItemsYield(items) + rest == lead + [open] + (ItemsYield(items) + rest);
      Front(lead, open, ItemsYield(items) + rest);
      ItemsStart(scan, items, rest);
      ItemsAccepted(scan, items, 0, End, rest);
    case Object(lead, open, members) =>
      assert lead + [open] + MembersYield(members) + rest == lead + [open] + (MembersYield(members) + rest);
      Front(lead, open, MembersYield(members) + rest);
      MembersAccepted(scan, members, "", End, rest);
  }

  lemma {:induction false} ItemsAccepted(
    scan: string -> Option<real>, items: Items, index: int, m: Entries, rest: seq<Token>)
    requires AreItems(scan, items)
    ensures PItems(scan, ItemsYield(items) + rest, index, m)
         == Parsed(true, Arr(ItemsMeaning(scan, items, index, m)), rest, [])
    decreases items
  {
    var key := Index(index);
    var cur := Lookup(Slot(m, key), key).GetOr(Null);
    SlotThenStore(m, key, Meaning(scan, items.item));
    match items
    case LastItem(item, close) =>
      assert Yield(item) + [close] + rest == Yield(item) + ([close] + rest);
      ValueAccepted(scan, item, [close] + rest, cur);
    case NextItem(item, comma, more) =>
      var left := ItemsYield(more) + rest;
      assert Yield(item) + [comma] + ItemsYield(more) + rest == Yield(item) + ([comma] + left);
      ValueAccepted(scan, item, [comma] + left, cur);
      ItemsAccepted(scan, more, index + 1, Store(m, key, Meaning(scan, item)), rest);
  }

  lemma {:induction false} MembersAccepted(
    scan: string -> Option<real>, members: Members, last: string, m: Entries, rest: seq<Token>)
    requires AreMembers(scan, members, last)
    ensures PMembers(scan, MembersYield(members) + rest, last, m)
         == Parsed(true, Obj(MembersMeaning(scan, members, last, m)), rest, [])
    decreases members, 1
  {
    match members
    case Closed(lead, close) => Front(lead, close, rest);
    case LastMember(lead, name, colon, value, gap, close) =>
      NameAccepted(scan, lead, name, colon, Yield(value) + (gap + [close] + rest), last, m);
      MemberTokens(lead, name, colon, Yield(value), gap, close, [], rest);
      LastMemberAccepted(scan, members, m, rest);
    case NextMember(lead, name, colon, value, gap, comma, more) =>
      NameAccepted(scan, lead, name, colon, Yield(value) + (gap + [comma] + (MembersYield(more) + rest)), last, m);
      MemberTokens(lead, name, colon, Yield(value), gap, comma, MembersYield(more), rest);
      NextMemberAccepted(scan, members, m, rest);
  }

  /** The tokens of a member and of what follows it, taken apart from the right. */
  lemma MemberTokens(lead: seq<Token>, name: Token, colon: Token, value: seq<Token>, gap: seq<Token>, t: Token,
                     more: seq<Token>, rest: seq<Token>)
    ensures lead + [name, colon] + value + gap + [t] + more + rest
         == lead + [name, colon] + (value + (gap + [t] + (more + rest)))
    ensures more == [] ==>
      lead + [name, colon] + value + gap + [t] + rest == lead + [name, colon] + (value + (gap + [t] + rest))
  {
    assert more == [] ==> more + rest == rest;
  }

  lemma NameAccepted(scan: string -> Option<real>, lead: seq<Token>, name: Token, colon: Token, left: seq<Token>,
                     last: string, m: Entries)
    requires Comments(lead) && IsName(name) && colon.kind.Colon?
    ensures PMembers(scan, lead + [name, colon] + left, last, m)
         == PMember(scan, left, StringValue(name).value, Slot(m, Name(CStr(StringValue(name).value))))
  {
    assert lead + [name, colon] + left == lead + [name] + ([colon] + left);
    Front(lead, name, [colon] + left);
  }

  lemma {:induction false} LastMemberAccepted(
    scan: string -> Option<real>, members: Members, m: Entries, rest: seq<Token>)
    requires members.LastMember? && AreMembers(scan, members, "")
    ensures var name := StringValue(members.name).value;
      PMember(scan, Yield(members.value) + (members.gap + [members.close] + rest), name, Slot(m, Name(CStr(name))))
      == Parsed(true, Obj(MembersMeaning(scan, members, "", m)), rest, [])
    decreases members, 0
  {
    var key := Name(CStr(StringValue(members.name).value));
    ValueAccepted(scan, members.value, members.gap + [members.close] + rest, Lookup(Slot(m, key), key).GetOr(Null));
    SlotThenStore(m, key, Meaning(scan, members.value));
    Front(members.gap, members.close, rest);
    GapFront(members.gap, members.close, rest);
  }

  lemma {:induction false} NextMemberAccepted(
    scan: string -> Option<real>, members: Members, m: Entries, rest: seq<Token>)
    requires members.NextMember? && AreMembers(scan, members, "")
    ensures var name := StringValue(members.name).value;
      var left := members.gap + [members.comma] + (MembersYield(members.members) + rest);
      PMember(scan, Yield(members.value) + left, name, Slot(m, Name(CStr(name))))
      == Parsed(true, Obj(MembersMeaning(scan, members, "", m)), rest, [])
    decreases members, 0
  {
    var name := StringValue(members.name).value;
    var key := Name(CStr(name));
    var after := MembersYield(members.members) + rest;
    ValueAccepted(scan, members.value, members.gap + [members.comma] + after, Lookup(Slot(m, key), key).GetOr(Null));
    SlotThenStore(m, key, Meaning(scan, members.value));
    Front(members.gap, members.comma, after);
    GapFront(members.gap, members.comma, after);
    MembersAccepted(scan, members.members, name, Store(m, key, Meaning(scan, members.value)), rest);
  }

  lemma GapFront(gap: seq<Token>, t: Token, rest: seq<Token>)
    requires Comments(gap)
    ensures Head(gap + [t] + rest) == if gap == [] then t else gap[0]
    ensures gap != [] ==> Head(gap + [t] + rest).kind.CommentTok?
  {
  }

  // ---- Whatever is accepted is a tree -------------------------------------------------------------

  lemma {:induction false} LeadOf(ts: seq<Token>) returns (lead: seq<Token>)
    ensures Comments(lead) && lead + DropComments(ts) == ts
  {
    if ts != [] && ts[0].kind.CommentTok? {
      var more := LeadOf(ts[1..]);
      lead := [ts[0]] + more;
      assert lead + DropComments(ts) == [ts[0]] + (more + DropComments(ts[1..]));
    } else {
      lead := [];
    }
  }

  lemma HeadTail(ts: seq<Token>)
    requires !Head(ts).kind.EndTok?
    ensures ts == [Head(ts)] + Tail(ts)
  {
  }

  lemma Enclosed(lead: seq<Token>, t: Token, inner: seq<Token>, left: seq<Token>)
    ensures lead + ([t] + (inner + left)) == lead + [t] + inner + left
  {
  }

  /** Where an accepted value begins. */
  lemma AtValue(scan: string -> Option<real>, ts: seq<Token>, cur: Value)
    returns (lead: seq<Token>, t: Token, rest: seq<Token>)
    requires PValue(scan, ts, cur).ok
    ensures Comments(lead) && ts == lead + ([t] + rest)
    ensures if t.kind.ObjectBegin? then PValue(scan, ts, cur) == PMembers(scan, rest, "", End)
            else if !t.kind.ArrayBegin? then IsScalar(scan, t) && PValue(scan, ts, cur).rest == rest
            else if Head(rest).kind.ArrayEnd? then PValue(scan, ts, cur).rest == Tail(rest)
            else PValue(scan, ts, cur) == PItems(scan, rest, 0, End)
  {
    lead := LeadOf(ts);
    var from := DropComments(ts);
    t, rest := Head(from), Tail(from);
    ValueShape(scan, ts, cur, t, rest);
    HeadTail(from);
  }

  lemma ValueShape(scan: string -> Option<real>, ts: seq<Token>, cur: Value, t: Token, rest: seq<Token>)
    requires PValue(scan, ts, cur).ok && t == Head(DropComments(ts)) && rest == Tail(DropComments(ts))
    ensures !t.kind.EndTok?
    ensures if t.kind.ObjectBegin? then PValue(scan, ts, cur) == PMembers(scan, rest, "", End)
            else if !t.kind.ArrayBegin? then IsScalar(scan, t) && PValue(scan, ts, cur).rest == rest
            else if Head(rest).kind.ArrayEnd? then PValue(scan, ts, cur).rest == Tail(rest)
            else PValue(scan, ts, cur) == PItems(scan, rest, 0, End)
  {
  }

  lemma {:induction false} ValueDerived(scan: string -> Option<real>, ts: seq<Token>, cur: Value)
    returns (d: Syntax)
    requires PValue(scan, ts, cur).ok
    ensures IsValue(scan, d) && ts == Yield(d) + PValue(scan, ts, cur).rest
    decreases |ts|, 0
  {
    var lead, t, rest := AtValue(scan, ts, cur);
    if t.kind.ObjectBegin? {
      var members := MembersDerived(scan, rest, "", End);
      d := Object(lead, t, members);
      Enclosed(lead, t, MembersYield(members), PMembers(scan, rest, "", End).rest);
    } else if t.kind.ArrayBegin? {
      d := ArrayDerived(scan, lead, t, rest);
    } else {
      d := Scalar(lead, t);
      assert lead + ([t] + rest) == lead + [t] + rest;
    }
  }

  lemma {:induction false} ArrayDerived(scan: string -> Option<real>, lead: seq<Token>, t: Token, rest: seq<Token>)
    returns (d: Syntax)
    requires Comments(lead) && t.kind.ArrayBegin?
    requires !Head(rest).kind.ArrayEnd? ==> PItems(scan, rest, 0, End).ok
    ensures IsValue(scan, d)
    ensures lead + ([t] + rest)
         == Yield(d) + if Head(rest).kind.ArrayEnd? then Tail(rest) else PItems(scan, rest, 0, End).rest
    decreases |rest|, 2
  {
    if Head(rest).kind.ArrayEnd? {
      HeadTail(rest);
      d := EmptyArray(lead, t, Head(rest));
      Enclosed(lead, t, [Head(rest)], Tail(rest));
      assert lead + [t] + [Head(rest)] == lead + [t, Head(rest)];
    } else {
      var items := ItemsDerived(scan, rest, 0, End);
      d := Array(lead, t, items);
      Enclosed(lead, t, ItemsYield(items), PItems(scan, rest, 0, End).rest);
    }
  }

  lemma {:induction false} ItemsDerived(scan: string -> Option<real>, ts: seq<Token>, index: int, m: Entries)
    returns (items: Items)
    requires PItems(scan, ts, index, m).ok
    ensures AreItems(scan, items) && ts == ItemsYield(items) + PItems(scan, ts, index, m).rest
    decreases |ts|, 1
  {
    var key := Index(index);
    var slot := Slot(m, key);
    var cur := Lookup(slot, key).GetOr(Null);
    var child := PValue(scan, ts, cur);
    var item := ValueDerived(scan, ts, cur);
    var sep, rest := Head(child.rest), Tail(child.rest);
    HeadTail(child.rest);
    if sep.kind.ArrayEnd? {
      items := LastItem(item, sep);
      assert Yield(item) + ([sep] + rest) == Yield(item) + [sep] + rest;
    } else {
      var more := ItemsDerived(scan, rest, index + 1, Store(slot, key, child.value));
      items := NextItem(item, sep, more);
      Enclosed(Yield(item), sep, ItemsYield(more), PItems(scan, ts, index, m).rest);
    }
  }

  /** Where accepted members begin: a closing brace, or a name and its colon. */
  lemma AtMember(scan: string -> Option<real>, ts: seq<Token>, last: string, m: Entries)
    returns (lead: seq<Token>, t: Token, rest: seq<Token>)
    requires PMembers(scan, ts, last, m).ok
    ensures Comments(lead) && ts == lead + ([t] + rest)
    ensures if t.kind.ObjectEnd? then last == "" && PMembers(scan, ts, last, m).rest == rest
            else
              && IsName(t) && rest != [] && rest[0].kind.Colon?
              && PMembers(scan, ts, last, m)
                 == PMember(scan, rest[1..], StringValue(t).value, Slot(m, Name(CStr(StringValue(t).value))))
  {
    lead := LeadOf(ts);
    var from := DropComments(ts);
    t, rest := Head(from), Tail(from);
    HeadTail(from);
  }

  lemma TwoInFront(lead: seq<Token>, a: Token, rest: seq<Token>)
    requires rest != []
    ensures lead + ([a] + rest) == lead + [a, rest[0]] + rest[1..]
  {
  }

  lemma AnyLast(scan: string -> Option<real>, members: Members, last: string)
    requires AreMembers(scan, members, "") && !members.Closed?
    ensures AreMembers(scan, members, last)
  {
  }

  lemma {:induction false} MembersDerived(scan: string -> Option<real>, ts: seq<Token>, last: string, m: Entries)
    returns (members: Members)
    requires PMembers(scan, ts, last, m).ok
    ensures AreMembers(scan, members, last) && ts == MembersYield(members) + PMembers(scan, ts, last, m).rest
    decreases |ts|, 1
  {
    var lead, t, rest := AtMember(scan, ts, last, m);
    if t.kind.ObjectEnd? {
      members := Closed(lead, t);
      assert lead + ([t] + rest) == lead + [t] + rest;
    } else {
      TwoInFront(lead, t, rest);
      members := MemberDerived(scan, lead, t, rest[0], rest[1..], Slot(m, Name(CStr(StringValue(t).value))));
      AnyLast(scan, members, last);
    }
  }

  lemma NothingLeft(scan: string -> Option<real>, name: string, m: Entries)
    ensures !PMembers(scan, [], name, m).ok
  {
  }

  /** What follows an accepted member's value: comments, and the token that ends or goes on. */
  lemma AfterMember(scan: string -> Option<real>, ts: seq<Token>, name: string, m: Entries)
    returns (gap: seq<Token>, comma: Token, rest: seq<Token>)
    requires PMember(scan, ts, name, m).ok
    ensures var key := Name(CStr(name));
      var child := PValue(scan, ts, Lookup(m, key).GetOr(Null));
      && child.ok && child.rest == gap + ([comma] + rest) && Comments(gap) && !comma.kind.CommentTok?
      && (gap == [] ==> comma.kind.Comma? || comma.kind.ObjectEnd?)
      && if comma.kind.ObjectEnd? then PMember(scan, ts, name, m).rest == rest
         else PMember(scan, ts, name, m) == PMembers(scan, rest, name, Store(m, key, child.value))
  {
    var key := Name(CStr(name));
    var child := PValue(scan, ts, Lookup(m, key).GetOr(Null));
    gap := LeadOf(child.rest);
    var after := DropComments(child.rest);
    comma, rest := Head(after), Tail(after);
    NothingLeft(scan, name, Store(m, key, child.value));
    assert after == [comma] + rest;
    if gap == [] {
      assert child.rest == after;
    }
  }

  lemma {:induction false} MemberDerived(scan: string -> Option<real>, lead: seq<Token>, t: Token, colon: Token,
                                         ts: seq<Token>, m: Entries) returns (members: Members)
    requires Comments(lead) && IsName(t) && colon.kind.Colon? && PMember(scan, ts, StringValue(t).value, m).ok
    ensures !members.Closed? && AreMembers(scan, members, "")
    ensures lead + [t, colon] + ts == MembersYield(members) + PMember(scan, ts, StringValue(t).value, m).rest
    decreases |ts|, 2
  {
    var name := StringValue(t).value;
    var key := Name(CStr(name));
    var cur := Lookup(m, key).GetOr(Null);
    var child := PValue(scan, ts, cur);
    var gap, comma, rest := AfterMember(scan, ts, name, m);
    var value := ValueDerived(scan, ts, cur);
    assert gap + ([comma] + rest) == gap + [comma] + rest;
    if comma.kind.ObjectEnd? {
      members := LastMember(lead, t, colon, value, gap, comma);
      MemberTokens(lead, t, colon, Yield(value), gap, comma, [], rest);
    } else {
      var more := MembersDerived(scan, rest, name, Store(m, key, child.value));
      members := NextMember(lead, t, colon, value, gap, comma, more);
      var left := PMembers(scan, rest, name, Store(m, key, child.value)).rest;
      MemberTokens(lead, t, colon, Yield(value), gap, comma, MembersYield(more), left);
    }
  }

  /** The documents this reader accepts: exactly those whose tokens begin with a tree; which tokens that
      tree takes and what it means are settled by the tokens. */
  lemma AcceptedIffTree(scan: string -> Option<real>, ts: seq<Token>, cur: Value)
    ensures PValue(scan, ts, cur).ok <==> exists d :: IsValue(scan, d) && Yield(d) <= ts
    ensures forall d :: IsValue(scan, d) && Yield(d) <= ts ==>
      PValue(scan, ts, cur) == Parsed(true, Meaning(scan, d), ts[|Yield(d)|..], [])
  {
    if PValue(scan, ts, cur).ok {
      var d := ValueDerived(scan, ts, cur);
      assert Yield(d) <= ts;
    }
    forall d | IsValue(scan, d) && Yield(d) <= ts
      ensures PValue(scan, ts, cur) == Parsed(true, Meaning(scan, d), ts[|Yield(d)|..], [])
    {
      assert ts == Yield(d) + ts[|Yield(d)|..];
      ValueAccepted(scan, d, ts[|Yield(d)|..], cur);
    }
  }

  /** The same for what stands between the braces of an object. */
  lemma MembersIffTree(scan: string -> Option<real>, ts: seq<Token>)
    ensures PMembers(scan, ts, "", End).ok <==> exists d :: AreMembers(scan, d, "") && MembersYield(d) <= ts
  {
    if PMembers(scan, ts, "", End).ok {
      var d := MembersDerived(scan, ts, "", End);
      assert MembersYield(d) <= ts;
    }
    forall d | AreMembers(scan, d, "") && MembersYield(d) <= ts ensures PMembers(scan, ts, "", End).ok {
      assert ts == MembersYield(d) + ts[|MembersYield(d)|..];
      MembersAccepted(scan, d, "", End, ts[|MembersYield(d)|..]);
    }
  }

  // ---- Against RFC 8259 -----------------------------------------------------------------------------

  /** A value by RFC 8259: no comments, members and items separated by commas, nothing after the last. */
  predicate IsPlain(scan: string -> Option<real>, d: Syntax) {
    && d.lead == []
    && match d
       case Scalar(_, token) => IsScalar(scan, token)
       case EmptyArray(_, open, close) => open.kind.ArrayBegin? && close.kind.ArrayEnd?
       case Array(_, open, items) => open.kind.ArrayBegin? && PlainItems(scan, items)
       case Object(_, open, Closed(lead, close)) =>
         open.kind.ObjectBegin? && lead == [] && close.kind.ObjectEnd?
       case Object(_, open, members) => open.kind.ObjectBegin? && PlainMembers(scan, members)
  }

  predicate PlainItems(scan: string -> Option<real>, items: Items) {
    match items
    case LastItem(item, close) => IsPlain(scan, item) && close.kind.ArrayEnd?
    case NextItem(item, comma, more) => IsPlain(scan, item) && comma.kind.Comma? && PlainItems(scan, more)
  }

  predicate PlainMembers(scan: string -> Option<real>, members: Members) {
    match members
    case Closed(_, _) => false
    case LastMember(lead, name, colon, value, gap, close) =>
      && lead == [] && IsName(name) && colon.kind.Colon? && IsPlain(scan, value) && gap == [] && close.kind.ObjectEnd?
    case NextMember(lead, name, colon, value, gap, comma, more) =>
      && lead == [] && IsName(name) && colon.kind.Colon? && IsPlain(scan, value) && gap == [] && comma.kind.Comma?
      && PlainMembers(scan, more)
  }

  lemma {:induction false} PlainIsValue(scan: string -> Option<real>, d: Syntax)
    requires IsPlain(scan, d)
    ensures IsValue(scan, d)
    decreases d
  {
    match d
    case Array(_, _, items) => PlainItemsAreItems(scan, items);
    case Object(_, _, members) =>
      if !members.Closed? {
        PlainMembersAreMembers(scan, members, "");
      }
    case _ =>
  }

  lemma {:induction false} PlainItemsAreItems(scan: string -> Option<real>, items: Items)
    requires PlainItems(scan, items)
    ensures AreItems(scan, items)
    decreases items
  {
    PlainIsValue(scan, items.item);
    if items.NextItem? {
      PlainItemsAreItems(scan, items.items);
    }
  }

  lemma {:induction false} PlainMembersAreMembers(scan: string -> Option<real>, members: Members, last: string)
    requires PlainMembers(scan, members)
    ensures AreMembers(scan, members, last)
    decreases members
  {
    PlainIsValue(scan, members.value);
    if members.NextMember? {
      PlainMembersAreMembers(scan, members.members, StringValue(members.name).value);
    }
  }

  /** Neither a comment nor a string that decodes to nothing. */
  predicate Ordinary(ts: seq<Token>) {
    forall k :: 0 <= k < |ts| ==> !ts[k].kind.CommentTok? && !(ts[k].kind.StringTok? && StringValue(ts[k]) == Ok(""))
  }

  lemma OrdinaryParts(a: seq<Token>, b: seq<Token>)
    requires Ordinary(a + b)
    ensures Ordinary(a) && Ordinary(b)
    ensures (Comments(a) ==> a == []) && (Comments(b) ==> b == [])
  {
    assert forall k :: 0 <= k < |a| ==> (a + b)[k] == a[k];
    assert forall k :: 0 <= k < |b| ==> (a + b)[|a| + k] == b[k];
    if a != [] {
      assert !a[0].kind.CommentTok?;
    }
    if b != [] {
      assert !b[0].kind.CommentTok?;
    }
  }

  lemma {:induction false} OrdinaryIsPlain(scan: string -> Option<real>, d: Syntax)
    requires IsValue(scan, d) && Ordinary(Yield(d))
    ensures IsPlain(scan, d)
    decreases d
  {
    match d
    case Scalar(lead, token) => OrdinaryParts(lead, [token]);
    case EmptyArray(lead, open, close) => OrdinaryParts(lead, [open, close]);
    case Array(lead, open, items) =>
      OrdinaryParts(lead + [open], ItemsYield(items));
      OrdinaryParts(lead, [open]);
      OrdinaryItems(scan, items);
    case Object(lead, open, members) =>
      OrdinaryParts(lead + [open], MembersYield(members));
      OrdinaryParts(lead, [open]);
      if members.Closed? {
        OrdinaryParts(members.lead, [members.close]);
      } else {
        OrdinaryMembers(scan, members, "");
      }
  }

  lemma {:induction false} OrdinaryItems(scan: string -> Option<real>, items: Items)
    requires AreItems(scan, items) && Ordinary(ItemsYield(items))
    ensures PlainItems(scan, items)
    decreases items
  {
    match items
    case LastItem(item, close) =>
      OrdinaryParts(Yield(item), [close]);
      OrdinaryIsPlain(scan, item);
    case NextItem(item, comma, more) =>
      OrdinaryParts(Yield(item) + [comma], ItemsYield(more));
      OrdinaryParts(Yield(item), [comma]);
      OrdinaryIsPlain(scan, item);
      OrdinaryItems(scan, more);
  }

  lemma {:induction false} OrdinaryMembers(scan: string -> Option<real>, members: Members, last: string)
    requires !members.Closed? && AreMembers(scan, members, last) && Ordinary(MembersYield(members))
    ensures PlainMembers(scan, members)
    decreases members
  {
    match members
    case LastMember(lead, name, colon, value, gap, close) =>
      OrdinaryMember(lead, name, colon, Yield(value), gap, close);
      OrdinaryIsPlain(scan, value);
    case NextMember(lead, name, colon, value, gap, comma, more) =>
      OrdinaryParts(lead + [name, colon] + Yield(value) + gap + [comma], MembersYield(more));
      OrdinaryMember(lead, name, colon, Yield(value), gap, comma);
      OrdinaryIsPlain(scan, value);
      OrdinaryMembers(scan, more, StringValue(name).value);
  }

  lemma OrdinaryMember(lead: seq<Token>, name: Token, colon: Token, value: seq<Token>, gap: seq<Token>, t: Token)
    requires Ordinary(lead + [name, colon] + value + gap + [t]) && Comments(lead) && Comments(gap)
    ensures lead == [] && gap == [] && Ordinary(value)
    ensures name.kind.StringTok? ==> StringValue(name) != Ok("")
  {
    OrdinaryParts(lead + [name, colon] + value + gap, [t]);
    OrdinaryParts(lead + [name, colon] + value, gap);
    OrdinaryParts(lead + [name, colon], value);
    OrdinaryParts(lead, [name, colon]);
    var two := [name, colon];
    assert Ordinary(two) && two[0] == name;
  }

  /** Against RFC 8259: every value by that grammar, all of whose tokens decode, is accepted; and without
      comments and empty strings nothing else is. */
  lemma PlainAccepted(scan: string -> Option<real>, ts: seq<Token>, cur: Value)
    ensures (exists d :: IsPlain(scan, d) && Yield(d) <= ts) ==> PValue(scan, ts, cur).ok
    ensures Ordinary(ts) ==> (PValue(scan, ts, cur).ok <==> exists d :: IsPlain(scan, d) && Yield(d) <= ts)
  {
    AcceptedIffTree(scan, ts, cur);
    if exists d :: IsPlain(scan, d) && Yield(d) <= ts {
      var d :| IsPlain(scan, d) && Yield(d) <= ts;
      PlainIsValue(scan, d);
    }
    if Ordinary(ts) && PValue(scan, ts, cur).ok {
      var d :| IsValue(scan, d) && Yield(d) <= ts;
      assert ts == Yield(d) + ts[|Yield(d)|..];
      OrdinaryParts(Yield(d), ts[|Yield(d)|..]);
      OrdinaryIsPlain(scan, d);
    }
  }
}
