/** `Value::operator<` and `operator==` (depend/json/json_value.cpp): the comparison of two
    trees by type, then size, then key by key, and the proof that it is a strict total order. */
module JsonOrder {
  import opened JsonValues

  function TypeTag(v: Value): int {
    match v
    case Null => 0
    case Int(_) => 1
    case UInt(_) => 2
    case Real(_) => 3
    case Str(_) => 4
    case Bool(_) => 5
    case Arr(_) => 6
    case Obj(_) => 7
  }

  /** `Value::operator<`. */
  predicate Less(a: Value, b: Value)
    decreases Weight(a) + Weight(b), 1
  {
    if TypeTag(a) != TypeTag(b) then TypeTag(a) < TypeTag(b)
    else
      match a
      case Null => false
      case Int(i) => i < b.i
      case UInt(u) => u < b.u
      case Real(r) => r < b.r
      case Bool(x) => !x && b.b
      case Str(c) =>
        || (c.NullPtr? && b.c.Chars?)
        || (b.c.Chars? && c.Chars? && Strcmp(c.s, b.c.s) < 0)
      case Arr(m) =>
        if MapSize(m) != MapSize(b.m) then MapSize(m) < MapSize(b.m) else MapLess(m, b.m)
      case Obj(m) =>
        if MapSize(m) != MapSize(b.m) then MapSize(m) < MapSize(b.m) else MapLess(m, b.m)
  }

  /** `std::map::operator<`, that is `std::lexicographical_compare` over the entries. */
  predicate MapLess(m: Entries, n: Entries)
    decreases MapWeight(m) + MapWeight(n), 0
  {
    match (m, n)
    case (_, End) => false
    case (End, _) => true
    case (Entry(k, v, r), Entry(l, w, s)) =>
      // the pair comparison, first this way round, then the other
      if KeyLess(k, l) || (!KeyLess(l, k) && Less(v, w)) then true
      else if KeyLess(l, k) || (!KeyLess(k, l) && Less(w, v)) then false
      else MapLess(r, s)
  }

  /** `Value::operator==`. */
  predicate Equal(a: Value, b: Value)
    decreases a
  {
    TypeTag(a) == TypeTag(b) &&
    match a
    case Null => true
    case Int(i) => i == b.i
    case UInt(u) => u == b.u
    case Real(r) => r == b.r
    case Bool(x) => x == b.b
    case Str(c) =>
      || (c.NullPtr? && b.c.NullPtr?)
      || (b.c.Chars? && c.Chars? && Strcmp(c.s, b.c.s) == 0)
    case Arr(m) => MapSize(m) == MapSize(b.m) && MapEqual(m, b.m)
    case Obj(m) => MapSize(m) == MapSize(b.m) && MapEqual(m, b.m)
  }

  predicate MapEqual(m: Entries, n: Entries)
    decreases m
  {
    match (m, n)
    case (End, End) => true
    case (Entry(k, v, r), Entry(l, w, s)) => KeyEqual(k, l) && Equal(v, w) && MapEqual(r, s)
    case _ => false
  }

  /** `Value::operator>` and `operator>=`, as the code defines them from `<`. */
  predicate Greater(a: Value, b: Value) {
    Less(b, a)
  }

  predicate GreaterOrEqual(a: Value, b: Value) {
    !Less(a, b)
  }

  /** All keys of one map are of one kind; `names` says which. */
  predicate Keyed(m: Entries, names: bool) {
    match m
    case End => true
    case Entry(k, _, r) => (k.Name? <==> names) && Keyed(r, names)
  }

  lemma {:induction false} ItemsKeyed(m: Entries, low: int)
    requires WFItems(m, low)
    ensures Keyed(m, false)
    decreases m
  {
    if m.Entry? {
      ItemsKeyed(m.rest, m.key.i + 1);
    }
  }

  lemma {:induction false} MembersKeyed(m: Entries)
    requires WFMembers(m)
    ensures Keyed(m, true)
    decreases m
  {
    if m.Entry? {
      MembersKeyed(m.rest);
    }
  }

  /** The values in a map are well formed, whichever kind of map it is. */
  predicate WFValues(m: Entries)
    decreases m
  {
    match m
    case End => true
    case Entry(_, v, r) => WF(v) && WFValues(r)
  }

  lemma {:induction false} ItemsWF(m: Entries, low: int)
    requires WFItems(m, low)
    ensures WFValues(m)
    decreases m
  {
    if m.Entry? {
      ItemsWF(m.rest, m.key.i + 1);
    }
  }

  lemma {:induction false} MembersWF(m: Entries)
    requires WFMembers(m)
    ensures WFValues(m)
    decreases m
  {
    if m.Entry? {
      MembersWF(m.rest);
    }
  }

  lemma ContainerWF(v: Value)
    requires WF(v) && (v.Arr? || v.Obj?)
    ensures WFValues(v.m) && Keyed(v.m, v.Obj?)
  {
    if v.Arr? {
      ItemsWF(v.m, 0);
      ItemsKeyed(v.m, 0);
    } else {
      MembersWF(v.m);
      MembersKeyed(v.m);
    }
  }

  /** `==` holds exactly between identical trees. */
  lemma {:induction false} EqualIsIdentity(a: Value, b: Value)
    requires WF(a) && WF(b)
    ensures Equal(a, b) <==> a == b
    decreases a
  {
    if TypeTag(a) == TypeTag(b) {
      if a.Str? && a.c.Chars? && b.c.Chars? {
        StrcmpOrder(a.c.s, b.c.s);
      } else if a.Arr? || a.Obj? {
        ContainerWF(a);
        ContainerWF(b);
        MapEqualIsIdentity(a.m, b.m, a.Obj?);
      }
    }
  }

  lemma {:induction false} MapEqualIsIdentity(m: Entries, n: Entries, names: bool)
    requires Keyed(m, names) && Keyed(n, names) && WFValues(m) && WFValues(n)
    ensures MapEqual(m, n) <==> m == n
    decreases m
  {
    if m.Entry? && n.Entry? {
      KeyOrder(m.key, n.key);
      EqualIsIdentity(m.value, n.value);
      MapEqualIsIdentity(m.rest, n.rest, names);
    }
  }

  /** Exactly one of `a < b`, `b < a` and `a == b` holds. */
  lemma {:induction false} Trichotomy(a: Value, b: Value)
    requires WF(a) && WF(b)
    ensures !(Less(a, b) && Less(b, a))
    ensures (!Less(a, b) && !Less(b, a)) <==> Equal(a, b)
    decreases a
  {
    EqualIsIdentity(a, b);
    if TypeTag(a) == TypeTag(b) {
      if a.Str? && a.c.Chars? && b.c.Chars? {
        StrcmpOrder(a.c.s, b.c.s);
      } else if a.Arr? || a.Obj? {
        ContainerWF(a);
        ContainerWF(b);
        MapTrichotomy(a.m, b.m, a.Obj?);
      }
    }
  }

  lemma {:induction false} MapTrichotomy(m: Entries, n: Entries, names: bool)
    requires Keyed(m, names) && Keyed(n, names) && WFValues(m) && WFValues(n)
    ensures !(MapLess(m, n) && MapLess(n, m))
    ensures (!MapLess(m, n) && !MapLess(n, m)) <==> m == n
    decreases m
  {
    if m.Entry? && n.Entry? {
      KeyOrder(m.key, n.key);
      Trichotomy(m.value, n.value);
      EqualIsIdentity(m.value, n.value);
      MapTrichotomy(m.rest, n.rest, names);
    }
  }

  lemma {:induction false} Transitive(a: Value, b: Value, c: Value)
    requires WF(a) && WF(b) && WF(c) && Less(a, b) && Less(b, c)
    ensures Less(a, c)
    decreases a
  {
    if TypeTag(a) == TypeTag(b) == TypeTag(c) {
      if a.Str? && a.c.Chars? && b.c.Chars? && c.c.Chars? {
        StrcmpTransitive(a.c.s, b.c.s, c.c.s);
      } else if (a.Arr? || a.Obj?) && MapSize(a.m) == MapSize(b.m) == MapSize(c.m) {
        ContainerWF(a);
        ContainerWF(b);
        ContainerWF(c);
        MapTransitive(a.m, b.m, c.m, a.Obj?);
      }
    }
  }

  lemma {:induction false} MapTransitive(m: Entries, n: Entries, o: Entries, names: bool)
    requires Keyed(m, names) && Keyed(n, names) && Keyed(o, names)
    requires WFValues(m) && WFValues(n) && WFValues(o)
    requires MapLess(m, n) && MapLess(n, o)
    ensures MapLess(m, o)
    decreases m
  {
    if m.Entry? {
      KeyOrder(m.key, n.key);
      KeyOrder(n.key, o.key);
      KeyOrder(m.key, o.key);
      Trichotomy(m.value, n.value);
      Trichotomy(n.value, o.value);
      EqualIsIdentity(m.value, n.value);
      EqualIsIdentity(n.value, o.value);
      if m.key == n.key == o.key {
        if Less(m.value, n.value) && Less(n.value, o.value) {
          Transitive(m.value, n.value, o.value);
        } else if m.value == n.value == o.value {
          MapTransitive(m.rest, n.rest, o.rest, names);
          Trichotomy(m.value, o.value);
        }
      } else if KeyLess(m.key, n.key) && KeyLess(n.key, o.key) {
        KeyTransitive(m.key, n.key, o.key);
      }
    }
  }

  /** The order theorem: `<` is a strict total order whose ties are exactly `==`, and
      `>` and `>=` agree with it. */
  lemma StrictTotalOrder(a: Value, b: Value, c: Value)
    requires WF(a) && WF(b) && WF(c)
    ensures !Less(a, a)
    ensures Less(a, b) && Less(b, c) ==> Less(a, c)
    ensures Less(a, b) || Less(b, a) || a == b
    ensures Less(a, b) ==> !Less(b, a) && !Equal(a, b)
    ensures Equal(a, b) <==> a == b
    ensures Greater(a, b) <==> !Less(a, b) && a != b
    ensures GreaterOrEqual(a, b) <==> Greater(a, b) || a == b
  {
    Trichotomy(a, a);
    Trichotomy(a, b);
    EqualIsIdentity(a, b);
    if Less(a, b) && Less(b, c) {
      Transitive(a, b, c);
    }
  }

  // ---- Which order it is ----------------------------------------------------------------------------

  /** Null, signed, unsigned, real, string, boolean, array, object. */
  predicate EarlierKind(a: Value, b: Value) {
    || (a.Null? && !b.Null?)
    || (a.Int? && (b.UInt? || b.Real? || b.Str? || b.Bool? || b.Arr? || b.Obj?))
    || (a.UInt? && (b.Real? || b.Str? || b.Bool? || b.Arr? || b.Obj?))
    || (a.Real? && (b.Str? || b.Bool? || b.Arr? || b.Obj?))
    || (a.Str? && (b.Bool? || b.Arr? || b.Obj?))
    || (a.Bool? && (b.Arr? || b.Obj?))
    || (a.Arr? && b.Obj?)
  }

  predicate SameKind(a: Value, b: Value) {
    !EarlierKind(a, b) && !EarlierKind(b, a)
  }

  /** By the first character that differs, a proper beginning first. */
  predicate StringBefore(s: string, t: string) {
    exists k :: 0 <= k <= |s| && k <= |t| && s[..k] == t[..k]
                && (k < |t| && (k == |s| || s[k] < t[k]))
  }

  /** Indices as numbers, names as strings. */
  predicate KeyBefore(k: Key, l: Key) {
    || (k.Index? && l.Index? && k.i < l.i)
    || (k.Name? && l.Name? && StringBefore(k.s, l.s))
  }

  /** The entries of a map, in order. */
  function Pairs(m: Entries): seq<(Key, Value)> {
    match m
    case End => []
    case Entry(k, v, r) => [(k, v)] + Pairs(r)
  }

  /** By the first entry that differs: its key, or its value under one key. */
  ghost predicate PairsBefore(p: seq<(Key, Value)>, q: seq<(Key, Value)>) {
    exists k :: 0 <= k < |p| && k < |q| && p[..k] == q[..k]
                && (KeyBefore(p[k].0, q[k].0) || (p[k].0 == q[k].0 && Less(p[k].1, q[k].1)))
  }

  lemma PrefixFront<T>(a: seq<T>, b: seq<T>, k: nat)
    requires k <= |a| && k <= |b| && a[..k] == b[..k]
    ensures k > 0 ==> a[0] == b[0]
  {
    if k > 0 {
      assert a[..k][0] == a[0] && b[..k][0] == b[0];
    }
  }

  lemma PrefixStep<T>(a: seq<T>, b: seq<T>, k: nat)
    requires k < |a| && k < |b| && a[0] == b[0]
    ensures a[..k + 1] == b[..k + 1] <==> a[1..][..k] == b[1..][..k]
  {
    assert a[..k + 1] == [a[0]] + a[1..][..k] && b[..k + 1] == [b[0]] + b[1..][..k];
    assert a[..k + 1][1..] == a[1..][..k] && b[..k + 1][1..] == b[1..][..k];
  }

  lemma StringStep(s: string, t: string)
    requires s != "" && t != "" && s[0] == t[0]
    ensures StringBefore(s, t) <==> StringBefore(s[1..], t[1..])
  {
    if StringBefore(s, t) {
      var k :| 0 <= k <= |s| && k <= |t| && s[..k] == t[..k] && (k < |t| && (k == |s| || s[k] < t[k]));
      assert k > 0;
      PrefixStep(s, t, k - 1);
    }
    if StringBefore(s[1..], t[1..]) {
      var a, b := s[1..], t[1..];
      var k :| 0 <= k <= |a| && k <= |b| && a[..k] == b[..k] && (k < |b| && (k == |a| || a[k] < b[k]));
      PrefixStep(s, t, k);
    }
  }

  lemma StringFront(s: string, t: string)
    requires s == "" || t == "" || s[0] != t[0]
    ensures StringBefore(s, t) <==> t != "" && (s == "" || s[0] < t[0])
  {
    if t != "" && (s == "" || s[0] < t[0]) {
      assert s[..0] == t[..0];
    }
    if StringBefore(s, t) {
      var k :| 0 <= k <= |s| && k <= |t| && s[..k] == t[..k] && (k < |t| && (k == |s| || s[k] < t[k]));
      PrefixFront(s, t, k);
    }
  }

  /** `strcmp` compares by the first character that differs. */
  lemma {:induction false} StrcmpMeans(s: string, t: string)
    ensures Strcmp(s, t) < 0 <==> StringBefore(s, t)
  {
    if s != "" && t != "" && s[0] == t[0] {
      StringStep(s, t);
      StrcmpMeans(s[1..], t[1..]);
    } else {
      StringFront(s, t);
    }
  }

  lemma KeyLessMeans(k: Key, l: Key)
    ensures KeyLess(k, l) <==> KeyBefore(k, l)
  {
    if k.Name? && l.Name? {
      StrcmpMeans(k.s, l.s);
    }
  }

  lemma {:induction false} MapSizeMeans(m: Entries)
    ensures MapSize(m) == |Pairs(m)|
  {
    if m.Entry? {
      MapSizeMeans(m.rest);
    }
  }

  lemma PairsStep(p: seq<(Key, Value)>, q: seq<(Key, Value)>)
    requires p != [] && q != [] && p[0] == q[0] && !Less(p[0].1, p[0].1) && !KeyBefore(p[0].0, p[0].0)
    ensures PairsBefore(p, q) <==> PairsBefore(p[1..], q[1..])
  {
    if PairsBefore(p, q) {
      var k :| 0 <= k < |p| && k < |q| && p[..k] == q[..k]
               && (KeyBefore(p[k].0, q[k].0) || (p[k].0 == q[k].0 && Less(p[k].1, q[k].1)));
      assert k > 0;
      PrefixStep(p, q, k - 1);
      assert p[1..][k - 1] == p[k] && q[1..][k - 1] == q[k];
    }
    if PairsBefore(p[1..], q[1..]) {
      var a, b := p[1..], q[1..];
      var k :| 0 <= k < |a| && k < |b| && a[..k] == b[..k]
               && (KeyBefore(a[k].0, b[k].0) || (a[k].0 == b[k].0 && Less(a[k].1, b[k].1)));
      PrefixStep(p, q, k);
      assert p[k + 1] == a[k] && q[k + 1] == b[k];
    }
  }

  lemma PairsFront(p: seq<(Key, Value)>, q: seq<(Key, Value)>)
    requires p != [] && q != [] && p[0] != q[0]
    ensures PairsBefore(p, q) <==> KeyBefore(p[0].0, q[0].0) || (p[0].0 == q[0].0 && Less(p[0].1, q[0].1))
  {
    if KeyBefore(p[0].0, q[0].0) || (p[0].0 == q[0].0 && Less(p[0].1, q[0].1)) {
      assert p[..0] == q[..0];
    }
    if PairsBefore(p, q) {
      var k :| 0 <= k < |p| && k < |q| && p[..k] == q[..k]
               && (KeyBefore(p[k].0, q[k].0) || (p[k].0 == q[k].0 && Less(p[k].1, q[k].1)));
      PrefixFront(p, q, k);
    }
  }

  lemma {:induction false} MapLessMeans(m: Entries, n: Entries, names: bool)
    requires Keyed(m, names) && Keyed(n, names) && WFValues(m) && WFValues(n) && MapSize(m) == MapSize(n)
    ensures MapLess(m, n) <==> PairsBefore(Pairs(m), Pairs(n))
    decreases m
  {
    if m.Entry? {
      assert Pairs(m)[1..] == Pairs(m.rest) && Pairs(n)[1..] == Pairs(n.rest);
      KeyOrder(m.key, n.key);
      KeyLessMeans(m.key, n.key);
      Trichotomy(m.value, n.value);
      EqualIsIdentity(m.value, n.value);
      if m.key == n.key && m.value == n.value {
        PairsStep(Pairs(m), Pairs(n));
        MapLessMeans(m.rest, n.rest, names);
      } else {
        PairsFront(Pairs(m), Pairs(n));
      }
    }
  }

  /** Which order `<` is: by kind first; numbers as numbers, false before true, a null string pointer
      before every string and strings by their first differing character; containers by the number of
      entries, and then by the first entry whose key or value differs. */
  lemma LessMeans(a: Value, b: Value)
    requires WF(a) && WF(b)
    ensures !SameKind(a, b) ==> (Less(a, b) <==> EarlierKind(a, b))
    ensures a.Null? && b.Null? ==> !Less(a, b)
    ensures a.Int? && b.Int? ==> (Less(a, b) <==> a.i < b.i)
    ensures a.UInt? && b.UInt? ==> (Less(a, b) <==> a.u < b.u)
    ensures a.Real? && b.Real? ==> (Less(a, b) <==> a.r < b.r)
    ensures a.Bool? && b.Bool? ==> (Less(a, b) <==> a.b == false && b.b == true)
    ensures a.Str? && b.Str? ==>
      (Less(a, b) <==> b.c.Chars? && (a.c.NullPtr? || StringBefore(a.c.s, b.c.s)))
    ensures (a.Arr? && b.Arr?) || (a.Obj? && b.Obj?) ==>
      var p, q := Pairs(a.m), Pairs(b.m);
      Less(a, b) <==> |p| < |q| || (|p| == |q| && PairsBefore(p, q))
  {
    if a.Str? && b.Str? && a.c.Chars? && b.c.Chars? {
      StrcmpMeans(a.c.s, b.c.s);
    } else if (a.Arr? && b.Arr?) || (a.Obj? && b.Obj?) {
      MapSizeMeans(a.m);
      MapSizeMeans(b.m);
      ContainerWF(a);
      ContainerWF(b);
      if MapSize(a.m) == MapSize(b.m) {
        MapLessMeans(a.m, b.m, a.Obj?);
      }
    }
  }

  /** A well-formed array holds its items by rising index, an object its members by rising name. */
  lemma {:induction false} KeysRise(m: Entries, names: bool, low: int, i: nat, j: nat)
    requires if names then WFMembers(m) else WFItems(m, low)
    requires i < j < |Pairs(m)|
    ensures KeyBefore(Pairs(m)[i].0, Pairs(m)[j].0)
    decreases m
  {
    var low' := if m.key.Index? then m.key.i + 1 else 0;
    if i > 0 {
      KeysRise(m.rest, names, low', i - 1, j - 1);
    } else if j == 1 {
      KeyLessMeans(m.key, m.rest.key);
    } else {
      KeysRise(m.rest, names, low', 0, j - 1);
      KeyLessMeans(m.key, m.rest.key);
      KeyLessMeans(m.rest.key, Pairs(m)[j].0);
      KeyTransitive(m.key, m.rest.key, Pairs(m)[j].0);
      KeyLessMeans(m.key, Pairs(m)[j].0);
    }
  }
}
