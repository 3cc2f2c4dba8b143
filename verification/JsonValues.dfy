/** The JSON value tree of depend/json: one constructor per `ValueType`, with the
    `std::map<CZString, Value>` behind arrays and objects as a list kept in key order. */
module JsonValues {
  import opened Basics

  /** A `CZString`: an array slot's index or an object member's name. */
  datatype Key = Index(i: int) | Name(s: string)

  /** A `char *` that may be null; the characters are those before the terminating NUL. */
  datatype CString = NullPtr | Chars(s: string)

  datatype Value =
    | Null
    | Int(i: int)
    | UInt(u: int)
    | Real(r: real)
    | Str(c: CString)
    | Bool(b: bool)
    | Arr(m: Entries)
    | Obj(m: Entries)

  datatype Entries = End | Entry(key: Key, value: Value, rest: Entries)

  const MIN_INT := -0x8000_0000
  const MAX_INT := 0x7FFF_FFFF
  const MAX_UINT := 0xFFFF_FFFF

  /** What a `char *` to the characters of `s` shows: everything before the first NUL. */
  function CStr(s: string): (r: string)
    ensures '\0' !in r
    ensures '\0' !in s ==> r == s
  {
    if s == [] || s[0] == '\0' then [] else [s[0]] + CStr(s[1..])
  }

  // ---- The map interface -------------------------------------------------------

  /** `strcmp`, on strings without NUL: negative, zero or positive. */
  function Strcmp(a: string, b: string): int {
    if a == [] && b == [] then 0
    else if a == [] then -1
    else if b == [] then 1
    else if a[0] != b[0] then (if a[0] < b[0] then -1 else 1)
    else Strcmp(a[1..], b[1..])
  }

  /** `CZString::operator<`. Indices and names never meet in one map; such a pair is unordered here. */
  predicate KeyLess(a: Key, b: Key) {
    match (a, b)
    case (Name(s), Name(t)) => Strcmp(s, t) < 0
    case (Index(i), Index(j)) => i < j
    case _ => false
  }

  /** `CZString::operator==`. */
  predicate KeyEqual(a: Key, b: Key) {
    match (a, b)
    case (Name(s), Name(t)) => Strcmp(s, t) == 0
    case (Index(i), Index(j)) => i == j
    case _ => false
  }

  /** `map_->find`. */
  function Lookup(m: Entries, k: Key): Option<Value> {
    match m
    case End => None
    case Entry(key, v, rest) => if key == k then Some(v) else Lookup(rest, k)
  }

  /** The map with `v` at `k`: in place of the old value, or inserted at `lower_bound(k)`. */
  function Store(m: Entries, k: Key, v: Value): Entries {
    match m
    case End => Entry(k, v, End)
    case Entry(key, w, rest) =>
      if key == k then Entry(k, v, rest)
      else if KeyLess(k, key) then Entry(k, v, m)
      else Entry(key, w, Store(rest, k, v))
  }

  /** The non-const `operator[]`: the map in which `k` certainly has a slot, null when new. */
  function Slot(m: Entries, k: Key): Entries {
    if Lookup(m, k).Some? then m else Store(m, k, Null)
  }

  function MapSize(m: Entries): nat {
    match m
    case End => 0
    case Entry(_, _, rest) => 1 + MapSize(rest)
  }

  /** `Value::size` of an array: the highest index plus one. */
  function ArraySize(m: Entries): int {
    if m.End? then 0
    else if m.rest.Entry? then ArraySize(m.rest)
    else if m.key.Index? then m.key.i + 1
    else 0
  }

  /** `Value::size`. */
  function Size(v: Value): int {
    match v
    case Arr(m) => ArraySize(m)
    case Obj(m) => MapSize(m)
    case _ => 0
  }

  /** The const `operator[](UInt)`: a missing slot reads as null. */
  function At(m: Entries, i: int): Value {
    var found := Lookup(m, Index(i));
    if found.Some? then found.value else Null
  }

  /** Number of nodes: the measure for recursion that does not follow the list structure. */
  function Weight(v: Value): nat
    decreases v
  {
    match v
    case Arr(m) => 1 + MapWeight(m)
    case Obj(m) => 1 + MapWeight(m)
    case _ => 1
  }

  function MapWeight(m: Entries): nat
    decreases m
  {
    match m
    case End => 0
    case Entry(_, v, rest) => 1 + Weight(v) + MapWeight(rest)
  }

  // ---- Well-formed trees ---------------------------------------------------------

  /** Machine ranges, NUL-free strings, and maps in strictly ascending key order. */
  predicate WF(v: Value)
    decreases v
  {
    match v
    case Int(i) => MIN_INT <= i <= MAX_INT
    case UInt(u) => 0 <= u <= MAX_UINT
    case Str(Chars(s)) => '\0' !in s
    case Arr(m) => WFItems(m, 0)
    case Obj(m) => WFMembers(m)
    case _ => true
  }

  predicate WFItems(m: Entries, low: int)
    decreases m
  {
    match m
    case End => true
    case Entry(key, v, rest) => key.Index? && low <= key.i && WF(v) && WFItems(rest, key.i + 1)
  }

  predicate WFMembers(m: Entries)
    decreases m
  {
    match m
    case End => true
    case Entry(key, v, rest) =>
      && key.Name? && '\0' !in key.s && WF(v) && WFMembers(rest)
      && (rest.Entry? ==> KeyLess(key, rest.key))
  }

  // ---- Facts about strcmp and the map -----------------------------------------------

  lemma {:induction false} StrcmpOrder(a: string, b: string)
    ensures Strcmp(a, b) == -Strcmp(b, a)
    ensures Strcmp(a, b) == 0 <==> a == b
    decreases a
  {
    if a != [] && b != [] && a[0] == b[0] {
      StrcmpOrder(a[1..], b[1..]);
      assert a == [a[0]] + a[1..] && b == [b[0]] + b[1..];
    }
  }

  lemma {:induction false} StrcmpTransitive(a: string, b: string, c: string)
    requires Strcmp(a, b) < 0 && Strcmp(b, c) < 0
    ensures Strcmp(a, c) < 0
  {
    if a != [] && b != [] && c != [] && a[0] == b[0] == c[0] {
      StrcmpTransitive(a[1..], b[1..], c[1..]);
    }
  }

  /** Same kind of key: all indices or all names. */
  predicate Comparable(a: Key, b: Key) {
    a.Name? <==> b.Name?
  }

  lemma KeyOrder(a: Key, b: Key)
    requires Comparable(a, b)
    ensures KeyEqual(a, b) <==> a == b
    ensures KeyLess(a, b) ==> !KeyLess(b, a) && a != b
    ensures KeyLess(a, b) || KeyLess(b, a) || a == b
  {
    if a.Name? {
      StrcmpOrder(a.s, b.s);
    }
  }

  lemma KeyTransitive(a: Key, b: Key, c: Key)
    requires KeyLess(a, b) && KeyLess(b, c)
    ensures KeyLess(a, c)
  {
    if a.Name? && b.Name? && c.Name? {
      StrcmpTransitive(a.s, b.s, c.s);
    }
  }

  /** A stored value is what a later look-up finds; every other key reads as before. */
  lemma {:induction false} StoreThenLookup(m: Entries, k: Key, v: Value, other: Key)
    ensures Lookup(Store(m, k, v), k) == Some(v)
    ensures other != k ==> Lookup(Store(m, k, v), other) == Lookup(m, other)
    decreases m
  {
    if m.Entry? {
      StoreThenLookup(m.rest, k, v, other);
    }
  }

  /** Storing keeps the key order: arrays. */
  lemma {:induction false} StoreKeepsItems(m: Entries, low: int, i: int, v: Value)
    requires WFItems(m, low) && low <= i && WF(v)
    ensures WFItems(Store(m, Index(i), v), low)
    decreases m
  {
    if m.Entry? && m.key.i < i {
      StoreKeepsItems(m.rest, m.key.i + 1, i, v);
    }
  }

  /** Storing keeps the key order: objects. */
  lemma {:induction false} StoreKeepsMembers(m: Entries, s: string, v: Value)
    requires WFMembers(m) && '\0' !in s && WF(v)
    ensures WFMembers(Store(m, Name(s), v))
    decreases m
  {
    if m.Entry? {
      KeyOrder(m.key, Name(s));
      StoreKeepsMembers(m.rest, s, v);
      if m.rest.Entry? {
        KeyOrder(m.rest.key, Name(s));
      }
    }
  }

  /** The size of an array is one more than its highest index: no slot lies beyond, and the last is
      taken, unless there is none. */
  lemma {:induction false} ArrayExtent(m: Entries, low: int, i: int)
    requires WFItems(m, low) && 0 <= low
    ensures Lookup(m, Index(i)).Some? ==> low <= i < ArraySize(m)
    ensures m.Entry? ==> ArraySize(m) > low && Lookup(m, Index(ArraySize(m) - 1)).Some?
    ensures m.End? ==> ArraySize(m) == 0
    decreases m
  {
    if m.Entry? {
      ArrayExtent(m.rest, m.key.i + 1, i);
    }
  }

  /** A C string is what stands before the first NUL. */
  lemma {:induction false} CStrCuts(before: string, after: string)
    requires '\0' !in before
    ensures CStr(before + "\0" + after) == before
  {
    var s := before + "\0" + after;
    if before == "" {
      assert s[0] == '\0';
    } else {
      assert s[1..] == before[1..] + "\0" + after;
      CStrCuts(before[1..], after);
    }
  }
}
