/**
 The text a provenance envelope's identity is computed over: keys sorted at every depth, then printed. Two values get
 one text exactly when they are equal up to the order of their keys, except that `sorted` loses every member named
 `__proto__`: assigning to that name on a plain object sets the object's prototype and adds no member.
 */
module CanonicalJson {
  import opened Wrappers
  import opened Text
  import opened Json
  import opened JsonRoundTrip

  const PROTO: Str := Ascii("__proto__")

  // ---- the order keys end up in ----

  /** Indices first, ascending; then the other keys by code units. */
  predicate KeyLess(a: Str, b: Str) {
    GoesBefore(a, b) || (!IsIndex(a) && !IsIndex(b) && Before(a, b))
  }

  lemma KeyLessTransitive(a: Str, b: Str, c: Str)
    requires KeyLess(a, b) && KeyLess(b, c)
    ensures KeyLess(a, c)
  {
    if IsIndex(b) {
      GoesBeforeTransitive(a, b, c);
    } else if !IsIndex(a) {
      BeforeTransitive(a, b, c);
    }
  }

  lemma KeyLessAsymmetric(a: Str, b: Str)
    requires KeyLess(a, b)
    ensures !KeyLess(b, a) && a != b
  {
    if GoesBefore(a, b) {
      GoesBeforeAsymmetric(a, b);
    } else {
      BeforeAsymmetric(a, b);
    }
  }

  lemma KeyLessTotal(a: Str, b: Str)
    ensures a == b || KeyLess(a, b) || KeyLess(b, a)
  {
    BeforeTotal(a, b);
  }

  predicate AllAfter(members: Members, key: Str) {
    members.Member? ==> KeyLess(key, members.key) && AllAfter(members.rest, key)
  }

  predicate KeySorted(members: Members) {
    members.Member? ==> AllAfter(members.rest, members.key) && KeySorted(members.rest)
  }

  lemma {:induction false} AllAfterEarlier(members: Members, key: Str, earlier: Str)
    requires AllAfter(members, key) && KeyLess(earlier, key)
    ensures AllAfter(members, earlier)
  {
    if members.Member? {
      KeyLessTransitive(earlier, key, members.key);
      AllAfterEarlier(members.rest, key, earlier);
    }
  }

  lemma {:induction false} AllAfterHas(members: Members, key: Str, other: Str)
    requires AllAfter(members, key) && HasKey(members, other)
    ensures KeyLess(key, other) && other != key
  {
    KeyLessAsymmetric(key, members.key);
    if members.key != other {
      AllAfterHas(members.rest, key, other);
    }
  }

  lemma {:induction false} GetOfKey(members: Members, key: Str)
    ensures Get(members, key).Some? <==> HasKey(members, key)
  {
    if members.Member? {
      GetOfKey(members.rest, key);
    }
  }

  /** An object listed in key order is settled by what its keys are mapped to. */
  lemma {:induction false} SortedIsUnique(a: Members, b: Members)
    requires KeySorted(a) && KeySorted(b)
    requires forall k :: Get(a, k) == Get(b, k)
    ensures a == b
  {
    if a.NoMembers? {
      var k := if b.Member? then b.key else [];
      assert Get(a, k) == Get(b, k);
    } else {
      assert Get(a, a.key) == Get(b, a.key);
      GetOfKey(b, a.key);
      assert Get(b, b.key) == Get(a, b.key);
      GetOfKey(a, b.key);
      if a.key != b.key {
        AllAfterHas(a.rest, a.key, b.key);
        AllAfterHas(b.rest, b.key, a.key);
        KeyLessAsymmetric(a.key, b.key);
        assert false;
      }
      forall k ensures Get(a.rest, k) == Get(b.rest, k) {
        assert Get(a, k) == Get(b, k);
        if k == a.key {
          GetOfKey(a.rest, k);
          GetOfKey(b.rest, k);
          if HasKey(a.rest, k) {
            AllAfterHas(a.rest, a.key, k);
          }
          if HasKey(b.rest, k) {
            AllAfterHas(b.rest, b.key, k);
          }
        }
      }
      SortedIsUnique(a.rest, b.rest);
    }
  }

  lemma {:induction false} AllAfterNoneBefore(members: Members, key: Str)
    requires AllAfter(members, key)
    ensures NoneGoesBefore(members, key) && !HasKey(members, key)
  {
    if members.Member? {
      KeyLessAsymmetric(key, members.key);
      AllAfterNoneBefore(members.rest, key);
    }
  }

  lemma {:induction false} SortedIsListed(members: Members)
    requires KeySorted(members)
    ensures Distinct(members) && Listed(members)
  {
    if members.Member? {
      SortedIsListed(members.rest);
      AllAfterNoneBefore(members.rest, members.key);
    }
  }

  // ---- the specification: each member placed by its key, `__proto__` nowhere ----

  function Place(members: Members, key: Str, value: Value): Members {
    if members.NoMembers? || KeyLess(key, members.key) then Member(key, value, members)
    else Member(members.key, members.value, Place(members.rest, key, value))
  }

  function SortedValue(v: Value): Value {
    match v
    case Array(items) => Array(SortedItems(items))
    case Object(members) => Object(InOrder(members))
    case _ => v
  }

  function SortedItems(items: Items): Items {
    match items
    case NoItems => NoItems
    case Item(v, rest) => Item(SortedValue(v), SortedItems(rest))
  }

  function InOrder(members: Members): Members {
    match members
    case NoMembers => NoMembers
    case Member(k, v, rest) => if k == PROTO then InOrder(rest) else Place(InOrder(rest), k, SortedValue(v))
  }

  function Canonical(v: Value): Str {
    Print(SortedValue(v))
  }

  lemma {:induction false} GetPlaced(members: Members, key: Str, value: Value, k: Str)
    requires !HasKey(members, key)
    ensures Get(Place(members, key, value), k) == if k == key then Some(value) else Get(members, k)
  {
    if members.Member? && !KeyLess(key, members.key) {
      GetPlaced(members.rest, key, value, k);
    }
  }

  lemma {:induction false} AllAfterPlaced(members: Members, key: Str, value: Value, k: Str)
    requires AllAfter(members, k) && KeyLess(k, key)
    ensures AllAfter(Place(members, key, value), k)
  {
    if members.Member? && !KeyLess(key, members.key) {
      AllAfterPlaced(members.rest, key, value, k);
    }
  }

  lemma {:induction false} PlaceKeepsSorted(members: Members, key: Str, value: Value)
    requires KeySorted(members) && !HasKey(members, key)
    ensures KeySorted(Place(members, key, value))
  {
    if members.Member? {
      KeyLessTotal(key, members.key);
      if KeyLess(key, members.key) {
        AllAfterEarlier(members.rest, members.key, key);
      } else {
        PlaceKeepsSorted(members.rest, key, value);
        AllAfterPlaced(members.rest, key, value, members.key);
      }
    }
  }

  /** `InOrder` maps the same keys to their sorted values, all but `__proto__`. */
  lemma {:induction false} GetInOrder(members: Members, k: Str)
    requires Distinct(members)
    ensures Get(InOrder(members), k)
         == if k != PROTO && HasKey(members, k) then GetOfKey(members, k); Some(SortedValue(Get(members, k).value))
            else None
  {
    if members.Member? {
      GetInOrder(members.rest, k);
      if members.key != PROTO {
        GetInOrder(members.rest, members.key);
        GetOfKey(InOrder(members.rest), members.key);
        GetPlaced(InOrder(members.rest), members.key, SortedValue(members.value), k);
      }
    }
  }

  lemma {:induction false} InOrderIsSorted(members: Members)
    requires Distinct(members)
    ensures KeySorted(InOrder(members))
  {
    if members.Member? {
      InOrderIsSorted(members.rest);
      if members.key != PROTO {
        GetInOrder(members.rest, members.key);
        GetOfKey(InOrder(members.rest), members.key);
        PlaceKeepsSorted(InOrder(members.rest), members.key, SortedValue(members.value));
      }
    }
  }

  lemma {:induction false} SortedValueIsValue(v: Value)
    requires IsValue(v)
    ensures IsValue(SortedValue(v))
    decreases v
  {
    if v.Array? {
      SortedItemsAreValues(v.items);
    } else if v.Object? {
      InOrderIsSorted(v.members);
      SortedIsListed(InOrder(v.members));
      InOrderAreMembers(v.members);
    }
  }

  lemma {:induction false} SortedItemsAreValues(items: Items)
    requires AreValues(items)
    ensures AreValues(SortedItems(items))
    decreases items
  {
    if items.Item? {
      SortedValueIsValue(items.first);
      SortedItemsAreValues(items.rest);
    }
  }

  lemma {:induction false} InOrderAreMembers(members: Members)
    requires AreMembers(members)
    ensures AreMembers(InOrder(members))
    decreases members
  {
    if members.Member? {
      SortedValueIsValue(members.value);
      InOrderAreMembers(members.rest);
      PlaceKeepsMembers(InOrder(members.rest), members.key, SortedValue(members.value));
    }
  }

  lemma {:induction false} PlaceKeepsMembers(members: Members, key: Str, value: Value)
    requires AreMembers(members) && IsValue(value)
    ensures AreMembers(Place(members, key, value))
  {
    if members.Member? {
      PlaceKeepsMembers(members.rest, key, value);
    }
  }

  // ---- equal up to key order ----

  /** Equal up to the order of keys, at every depth; the order of items counts. */
  predicate Equiv(a: Value, b: Value) {
    match a
    case Array(items) => b.Array? && EquivItems(items, b.items)
    case Object(members) => b.Object? && Covers(members, b.members) && KeysWithin(b.members, members)
    case _ => a == b
  }

  predicate EquivItems(a: Items, b: Items) {
    if a.NoItems? then b.NoItems? else b.Item? && Equiv(a.first, b.first) && EquivItems(a.rest, b.rest)
  }

  predicate Covers(a: Members, b: Members) {
    a.Member? ==>
      var value := Get(b, a.key);
      value.Some? && Equiv(a.value, value.value) && Covers(a.rest, b)
  }

  predicate KeysWithin(a: Members, b: Members) {
    a.Member? ==> HasKey(b, a.key) && KeysWithin(a.rest, b)
  }

  lemma {:induction false} KeysWithinHas(a: Members, b: Members, k: Str)
    requires KeysWithin(a, b) && HasKey(a, k)
    ensures HasKey(b, k)
  {
    if a.key != k {
      KeysWithinHas(a.rest, b, k);
    }
  }

  /** The value without its members named `__proto__`, at every depth. */
  function Strip(v: Value): Value {
    match v
    case Array(items) => Array(StripItems(items))
    case Object(members) => Object(StripMembers(members))
    case _ => v
  }

  function StripItems(items: Items): Items {
    match items
    case NoItems => NoItems
    case Item(v, rest) => Item(Strip(v), StripItems(rest))
  }

  function StripMembers(members: Members): Members {
    match members
    case NoMembers => NoMembers
    case Member(k, v, rest) => if k == PROTO then StripMembers(rest) else Member(k, Strip(v), StripMembers(rest))
  }

  /** No member anywhere inside is named `__proto__`. */
  predicate Unprototyped(v: Value) {
    Strip(v) == v
  }

  lemma {:induction false} HasKeyStripped(members: Members, k: Str)
    ensures HasKey(StripMembers(members), k) <==> HasKey(members, k) && k != PROTO
  {
    if members.Member? {
      HasKeyStripped(members.rest, k);
    }
  }

  lemma {:induction false} NoneGoesBeforeStripped(members: Members, k: Str)
    requires NoneGoesBefore(members, k)
    ensures NoneGoesBefore(StripMembers(members), k)
  {
    if members.Member? {
      NoneGoesBeforeStripped(members.rest, k);
    }
  }

  lemma {:induction false} StrippedIsValue(v: Value)
    requires IsValue(v)
    ensures IsValue(Strip(v))
    decreases v
  {
    if v.Array? {
      StrippedAreValues(v.items);
    } else if v.Object? {
      StrippedAreMembers(v.members);
    }
  }

  lemma {:induction false} StrippedAreValues(items: Items)
    requires AreValues(items)
    ensures AreValues(StripItems(items))
    decreases items
  {
    if items.Item? {
      StrippedIsValue(items.first);
      StrippedAreValues(items.rest);
    }
  }

  lemma {:induction false} StrippedAreMembers(members: Members)
    requires IsValue(Object(members))
    ensures IsValue(Object(StripMembers(members)))
    decreases members
  {
    if members.Member? {
      StrippedIsValue(members.value);
      assert IsValue(Object(members.rest));
      StrippedAreMembers(members.rest);
      HasKeyStripped(members.rest, members.key);
      NoneGoesBeforeStripped(members.rest, members.key);
    }
  }

  lemma {:induction false} StrippingTwice(v: Value)
    ensures Strip(Strip(v)) == Strip(v)
    decreases v
  {
    if v.Array? {
      StrippingItemsTwice(v.items);
    } else if v.Object? {
      StrippingMembersTwice(v.members);
    }
  }

  lemma {:induction false} StrippingItemsTwice(items: Items)
    ensures StripItems(StripItems(items)) == StripItems(items)
    decreases items
  {
    if items.Item? {
      StrippingTwice(items.first);
      StrippingItemsTwice(items.rest);
    }
  }

  lemma {:induction false} StrippingMembersTwice(members: Members)
    ensures StripMembers(StripMembers(members)) == StripMembers(members)
    decreases members
  {
    if members.Member? {
      StrippingTwice(members.value);
      StrippingMembersTwice(members.rest);
    }
  }

  /** What is stripped makes no difference to what is sorted. */
  lemma {:induction false} SortedOfStripped(v: Value)
    ensures SortedValue(Strip(v)) == SortedValue(v)
    decreases v
  {
    if v.Array? {
      SortedItemsOfStripped(v.items);
    } else if v.Object? {
      InOrderOfStripped(v.members);
    }
  }

  lemma {:induction false} SortedItemsOfStripped(items: Items)
    ensures SortedItems(StripItems(items)) == SortedItems(items)
    decreases items
  {
    if items.Item? {
      SortedOfStripped(items.first);
      SortedItemsOfStripped(items.rest);
    }
  }

  lemma {:induction false} InOrderOfStripped(members: Members)
    ensures InOrder(StripMembers(members)) == InOrder(members)
    decreases members
  {
    if members.Member? {
      SortedOfStripped(members.value);
      InOrderOfStripped(members.rest);
    }
  }

  // ---- equivalent values are sorted alike ----

  lemma {:induction false} EquivSortsAlike(a: Value, b: Value)
    requires IsValue(a) && IsValue(b) && Equiv(a, b)
    ensures SortedValue(a) == SortedValue(b)
    decreases a
  {
    if a.Array? {
      EquivItemsSortAlike(a.items, b.items);
    } else if a.Object? {
      var m, n := a.members, b.members;
      forall k ensures Get(InOrder(m), k) == Get(InOrder(n), k) {
        GetInOrder(m, k);
        GetInOrder(n, k);
        if HasKey(m, k) {
          CoveredSortsAlike(m, n, k);
        } else if HasKey(n, k) {
          KeysWithinHas(n, m, k);
        }
      }
      InOrderIsSorted(m);
      InOrderIsSorted(n);
      SortedIsUnique(InOrder(m), InOrder(n));
    }
  }

  lemma {:induction false} EquivItemsSortAlike(a: Items, b: Items)
    requires AreValues(a) && AreValues(b) && EquivItems(a, b)
    ensures SortedItems(a) == SortedItems(b)
    decreases a
  {
    if a.Item? {
      EquivSortsAlike(a.first, b.first);
      EquivItemsSortAlike(a.rest, b.rest);
    }
  }

  lemma {:induction false} CoveredSortsAlike(m: Members, n: Members, k: Str)
    requires AreMembers(m) && AreMembers(n) && Covers(m, n) && HasKey(m, k)
    ensures Get(m, k).Some? && Get(n, k).Some? && HasKey(n, k)
    ensures SortedValue(Get(m, k).value) == SortedValue(Get(n, k).value)
    decreases m
  {
    GetOfKey(n, k);
    if m.key == k {
      GotIsValue(n, k);
      EquivSortsAlike(m.value, Get(n, k).value);
    } else {
      CoveredSortsAlike(m.rest, n, k);
    }
  }

  lemma {:induction false} GotIsValue(members: Members, k: Str)
    requires AreMembers(members)
    ensures Get(members, k).Some? ==> IsValue(Get(members, k).value)
  {
    if members.Member? {
      GotIsValue(members.rest, k);
    }
  }

  // ---- values sorted alike are equivalent ----

  lemma {:induction false} SortedAlikeIsEquiv(a: Value, b: Value)
    requires IsValue(a) && IsValue(b) && Unprototyped(a) && Unprototyped(b)
    requires SortedValue(a) == SortedValue(b)
    ensures Equiv(a, b)
    decreases a
  {
    if a.Array? {
      SortedItemsAlikeAreEquiv(a.items, b.items);
    } else if a.Object? {
      SortedMembersAlikeCover(a.members, b.members, a.members);
      SortedMembersAlikeWithin(b.members, a.members, b.members);
    }
  }

  lemma {:induction false} SortedItemsAlikeAreEquiv(a: Items, b: Items)
    requires AreValues(a) && AreValues(b) && StripItems(a) == a && StripItems(b) == b
    requires SortedItems(a) == SortedItems(b)
    ensures EquivItems(a, b)
    decreases a
  {
    if a.Item? {
      SortedAlikeIsEquiv(a.first, b.first);
      SortedItemsAlikeAreEquiv(a.rest, b.rest);
    }
  }

  /** `part` is what is left of `a` to look at. */
  lemma {:induction false} SortedMembersAlikeCover(a: Members, b: Members, part: Members)
    requires IsValue(Object(a)) && IsValue(Object(b)) && InOrder(a) == InOrder(b)
    requires StripMembers(b) == b
    requires Distinct(part) && AreMembers(part) && StripMembers(part) == part
    requires forall k :: Get(part, k).Some? ==> Get(a, k) == Get(part, k)
    ensures Covers(part, b)
    decreases part
  {
    if part.Member? {
      var k := part.key;
      HasKeyStripped(part, k);
      assert Get(part, k) == Some(part.value);
      GetOfKey(a, k);
      GetInOrder(a, k);
      GetInOrder(b, k);
      GetOfKey(b, k);
      GotIsValue(b, k);
      GotIsStripped(b, k);
      StrippedRest(part);
      SortedAlikeIsEquiv(part.value, Get(b, k).value);
      forall j | Get(part.rest, j).Some? ensures Get(a, j) == Get(part.rest, j) {
        GetOfKey(part.rest, j);
        assert Get(part, j) == Get(part.rest, j);
      }
      SortedMembersAlikeCover(a, b, part.rest);
    }
  }

  lemma {:induction false} SortedMembersAlikeWithin(a: Members, b: Members, part: Members)
    requires Distinct(a) && Distinct(b) && InOrder(a) == InOrder(b)
    requires StripMembers(part) == part
    requires forall k :: HasKey(part, k) ==> HasKey(a, k)
    ensures KeysWithin(part, b)
    decreases part
  {
    if part.Member? {
      var k := part.key;
      HasKeyStripped(part, k);
      assert HasKey(part, k);
      GetInOrder(a, k);
      GetInOrder(b, k);
      StrippedRest(part);
      SortedMembersAlikeWithin(a, b, part.rest);
    }
  }

  lemma StrippedRest(members: Members)
    requires members.Member? && StripMembers(members) == members
    ensures StripMembers(members.rest) == members.rest && Strip(members.value) == members.value
  {
    HasKeyStripped(members, members.key);
  }

  lemma {:induction false} GotIsStripped(members: Members, k: Str)
    requires StripMembers(members) == members
    ensures Get(members, k).Some? ==> Unprototyped(Get(members, k).value)
  {
    if members.Member? {
      StrippedRest(members);
      GotIsStripped(members.rest, k);
    }
  }

  // ---- sorting twice ----

  predicate AllFixed(members: Members) {
    members.Member? ==>
      members.key != PROTO && SortedValue(members.value) == members.value && AllFixed(members.rest)
  }

  lemma {:induction false} PlaceKeepsFixed(members: Members, key: Str, value: Value)
    requires AllFixed(members) && key != PROTO && SortedValue(value) == value
    ensures AllFixed(Place(members, key, value))
  {
    if members.Member? {
      PlaceKeepsFixed(members.rest, key, value);
    }
  }

  lemma {:induction false} FixedInOrder(members: Members)
    requires KeySorted(members) && AllFixed(members)
    ensures InOrder(members) == members
  {
    if members.Member? {
      FixedInOrder(members.rest);
    }
  }

  lemma {:induction false} SortingTwice(v: Value)
    requires IsValue(v)
    ensures SortedValue(SortedValue(v)) == SortedValue(v)
    decreases v
  {
    if v.Array? {
      SortingItemsTwice(v.items);
    } else if v.Object? {
      InOrderIsFixed(v.members);
      InOrderIsSorted(v.members);
      FixedInOrder(InOrder(v.members));
    }
  }

  lemma {:induction false} SortingItemsTwice(items: Items)
    requires AreValues(items)
    ensures SortedItems(SortedItems(items)) == SortedItems(items)
    decreases items
  {
    if items.Item? {
      SortingTwice(items.first);
      SortingItemsTwice(items.rest);
    }
  }

  lemma {:induction false} InOrderIsFixed(members: Members)
    requires AreMembers(members)
    ensures AllFixed(InOrder(members))
    decreases members
  {
    if members.Member? {
      InOrderIsFixed(members.rest);
      if members.key != PROTO {
        SortingTwice(members.value);
        PlaceKeepsFixed(InOrder(members.rest), members.key, SortedValue(members.value));
      }
    }
  }

  // ---- main results ----

  /** Two values get one text exactly when, `__proto__` members aside, they are equal up to key order. */
  lemma SameTextIffEquivalent(a: Value, b: Value)
    requires IsValue(a) && IsValue(b)
    ensures Canonical(a) == Canonical(b) <==> Equiv(Strip(a), Strip(b))
  {
    SortedOfStripped(a);
    SortedOfStripped(b);
    StrippedIsValue(a);
    StrippedIsValue(b);
    StrippingTwice(a);
    StrippingTwice(b);
    if Canonical(a) == Canonical(b) {
      SortedValueIsValue(a);
      SortedValueIsValue(b);
      PrintIsInjective(SortedValue(a), SortedValue(b));
      SortedAlikeIsEquiv(Strip(a), Strip(b));
    }
    if Equiv(Strip(a), Strip(b)) {
      EquivSortsAlike(Strip(a), Strip(b));
    }
  }

  /** Where neither value has such a member, that is equality up to key order and nothing else. */
  lemma SameTextIffEqual(a: Value, b: Value)
    requires IsValue(a) && IsValue(b) && Unprototyped(a) && Unprototyped(b)
    ensures Canonical(a) == Canonical(b) <==> Equiv(a, b)
  {
    SameTextIffEquivalent(a, b);
  }

  /** Where one has, it is not: these two differ and share their text. */
  lemma ProtoIsLost(v: Value)
    requires IsValue(v)
    ensures var a := Object(Member(PROTO, v, NoMembers));
            var b := Object(NoMembers);
            IsValue(a) && IsValue(b) && !Equiv(a, b) && Canonical(a) == Canonical(b)
  {
    var members := Member(PROTO, v, NoMembers);
    assert !Covers(members, NoMembers);
    assert InOrder(members) == InOrder(NoMembers) == NoMembers;
    assert SortedValue(Object(members)) == SortedValue(Object(NoMembers));
    assert Distinct(members) && Listed(members) && AreMembers(members);
  }

  /** Parsing the text and making it canonical again, or only printing it again, gives the same text. */
  lemma CanonicalIsStable(v: Value)
    requires IsValue(v)
    ensures Parse(Canonical(v)) == Some(SortedValue(v))
    ensures Print(Parse(Canonical(v)).value) == Canonical(v)
    ensures Canonical(Parse(Canonical(v)).value) == Canonical(v)
  {
    SortedValueIsValue(v);
    ParseUndoesPrint(SortedValue(v));
    SortingTwice(v);
  }

  // ---- `sorted` as the program has it ----

  /** `Object.keys(value).sort()`. */
  function SortedKeys(members: Members): seq<Str> {
    if members.NoMembers? then [] else InsertKey(SortedKeys(members.rest), members.key)
  }

  function InsertKey(keys: seq<Str>, key: Str): seq<Str> {
    if keys == [] || Before(key, keys[0]) then [key] + keys else [keys[0]] + InsertKey(keys[1..], key)
  }

  predicate Ascending(keys: seq<Str>) {
    forall i, j :: 0 <= i < j < |keys| ==> Before(keys[i], keys[j])
  }

  lemma {:induction false} InsertKeyHolds(keys: seq<Str>, key: Str, k: Str)
    ensures k in InsertKey(keys, key) <==> k in keys || k == key
  {
    if keys != [] && !Before(key, keys[0]) {
      InsertKeyHolds(keys[1..], key, k);
      assert keys == [keys[0]] + keys[1..];
    }
  }

  lemma {:induction false} InsertKeyAscends(keys: seq<Str>, key: Str)
    requires Ascending(keys) && key !in keys
    ensures Ascending(InsertKey(keys, key))
  {
    if keys != [] {
      BeforeTotal(key, keys[0]);
      if Before(key, keys[0]) {
        forall i | 0 < i < |keys| ensures Before(key, keys[i]) {
          BeforeTransitive(key, keys[0], keys[i]);
        }
      } else {
        InsertKeyAscends(keys[1..], key);
        forall k | k in InsertKey(keys[1..], key) ensures Before(keys[0], k) {
          InsertKeyHolds(keys[1..], key, k);
        }
      }
    }
  }

  lemma {:induction false} SortedKeysHold(members: Members, k: Str)
    ensures k in SortedKeys(members) <==> HasKey(members, k)
  {
    if members.Member? {
      SortedKeysHold(members.rest, k);
      InsertKeyHolds(SortedKeys(members.rest), members.key, k);
    }
  }

  lemma {:induction false} SortedKeysAscend(members: Members)
    requires Distinct(members)
    ensures Ascending(SortedKeys(members))
  {
    if members.Member? {
      SortedKeysAscend(members.rest);
      SortedKeysHold(members.rest, members.key);
      InsertKeyAscends(SortedKeys(members.rest), members.key);
    }
  }

  /** `out[key] = value` on a plain object. */
  function Assign(out: Members, key: Str, value: Value): Members {
    if key == PROTO then out else Put(out, key, value)
  }

  predicate AllBefore(members: Members, key: Str) {
    members.Member? ==> Before(members.key, key) && AllBefore(members.rest, key)
  }

  lemma {:induction false} AllBeforeFrom(members: Members, key: Str)
    requires forall k :: HasKey(members, k) ==> Before(k, key)
    ensures AllBefore(members, key)
  {
    if members.Member? {
      assert HasKey(members, members.key);
      assert forall k :: HasKey(members.rest, k) ==> HasKey(members, k);
      AllBeforeFrom(members.rest, key);
    }
  }

  /** Handed over in ascending order, the keys that are no indices go last and the indices find their place. */
  lemma {:induction false} InsertKeepsSorted(members: Members, key: Str, value: Value)
    requires KeySorted(members) && AllBefore(members, key)
    ensures KeySorted(Insert(members, key, value)) && Insert(members, key, value) == Place(members, key, value)
    ensures !HasKey(members, key)
  {
    if members.Member? {
      BeforeAsymmetric(members.key, key);
      assert GoesBefore(key, members.key) <==> KeyLess(key, members.key);
      InsertKeepsSorted(members.rest, key, value);
      PlaceKeepsSorted(members, key, value);
    }
  }

  function Size(v: Value): nat {
    match v
    case Array(items) => 1 + ItemsSize(items)
    case Object(members) => 1 + MembersSize(members)
    case _ => 1
  }

  function ItemsSize(items: Items): nat {
    if items.NoItems? then 0 else 1 + Size(items.first) + ItemsSize(items.rest)
  }

  function MembersSize(members: Members): nat {
    if members.NoMembers? then 0 else 1 + Size(members.value) + MembersSize(members.rest)
  }

  lemma {:induction false} GetIsSmaller(members: Members, key: Str)
    requires HasKey(members, key)
    ensures Get(members, key).Some? && Size(Get(members, key).value) < MembersSize(members)
  {
    if members.key != key {
      GetIsSmaller(members.rest, key);
    }
  }

  method Sorted(value: Value) returns (out: Value)
    requires IsValue(value)
    ensures out == SortedValue(value)
    decreases Size(value)
  {
    match value
    case Array(items) =>
      var mapped := SortEach(items);
      out := Array(mapped);
    case Object(members) =>
      var keys, fields, i := SortedKeys(members), NoMembers, 0;
      SortedKeysAscend(members);
      while i < |keys|
        invariant 0 <= i <= |keys|
        invariant KeySorted(fields)
        invariant forall k :: HasKey(fields, k) <==> k in keys[..i] && k != PROTO
        invariant forall k :: HasKey(fields, k) ==> Get(fields, k) == Get(InOrder(members), k)
      {
        var key := keys[i];
        SortedKeysHold(members, key);
        GetIsSmaller(members, key);
        GotIsValue(members, key);
        var field := Sorted(Get(members, key).value);
        ghost var before := fields;
        fields := Assign(fields, key, field);
        GetInOrder(members, key);
        if key != PROTO {
          AllBeforeFrom(before, key);
          InsertKeepsSorted(before, key, field);
          forall k ensures HasKey(fields, k) <==> HasKey(before, k) || k == key
            ensures Get(fields, k) == if k == key then Some(field) else Get(before, k)
          {
            HasKeyInsert(before, key, field, k);
            GetPlaced(before, key, field, k);
          }
        }
        i := i + 1;
      }
      forall k ensures Get(fields, k) == Get(InOrder(members), k) {
        SortedKeysHold(members, k);
        GetInOrder(members, k);
        GetOfKey(fields, k);
      }
      InOrderIsSorted(members);
      SortedIsUnique(fields, InOrder(members));
      out := Object(fields);
    case _ =>
      out := value;
  }

  /** `value.map(sorted)`. */
  method SortEach(items: Items) returns (mapped: Items)
    requires AreValues(items)
    ensures mapped == SortedItems(items)
    decreases ItemsSize(items)
  {
    if items.NoItems? {
      mapped := NoItems;
    } else {
      var first := Sorted(items.first);
      var rest := SortEach(items.rest);
      mapped := Item(first, rest);
    }
  }

  method CanonicalText(value: Value) returns (text: Str)
    requires IsValue(value)
    ensures text == Canonical(value)
  {
    var out := Sorted(value);
    text := Print(out);
  }
}
