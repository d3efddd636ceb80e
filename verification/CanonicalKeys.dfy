/**
 The order of the keys in canonical text, in terms of numbers and of code units, and what else the text is made of.
 */
module CanonicalKeys {
  import opened Wrappers
  import opened Text
  import opened Json
  import opened JsonPrinted
  import opened JsonRoundTrip
  import opened CanonicalJson

  predicate AllDigits(s: Str) {
    forall i :: 0 <= i < |s| ==> IsDigit(s[i])
  }

  function Pow10(n: nat): (p: nat)
    ensures p > 0
  {
    if n == 0 then 1 else 10 * Pow10(n - 1)
  }

  /** The number a row of digits writes. */
  function Decimal(s: Str): nat
    requires AllDigits(s)
  {
    if s == [] then 0 else (s[0] - 0x30) * Pow10(|s| - 1) + Decimal(s[1..])
  }

  lemma {:induction false} DecimalBelow(s: Str)
    requires AllDigits(s)
    ensures Decimal(s) < Pow10(|s|)
  {
    if s != [] {
      DecimalBelow(s[1..]);
      Scaled(s[0] - 0x30, 9, Pow10(|s| - 1));
    }
  }

  lemma Scaled(d: nat, e: nat, p: nat)
    requires d <= e
    ensures d * p <= e * p
  {
  }

  /** Rows of digits of one length are ordered as the numbers they write. */
  lemma {:induction false} SameLengthOrder(a: Str, b: Str)
    requires AllDigits(a) && AllDigits(b) && |a| == |b|
    ensures Before(a, b) <==> Decimal(a) < Decimal(b)
  {
    if a != [] {
      SameLengthOrder(a[1..], b[1..]);
      DecimalBelow(a[1..]);
      DecimalBelow(b[1..]);
      var p, d, e := Pow10(|a| - 1), a[0] - 0x30, b[0] - 0x30;
      if d < e {
        LeadingDecides(d, e, p, Decimal(a[1..]), Decimal(b[1..]));
      } else if e < d {
        LeadingDecides(e, d, p, Decimal(b[1..]), Decimal(a[1..]));
      }
    }
  }

  lemma LeadingDecides(d: nat, e: nat, p: nat, x: nat, y: nat)
    requires d < e && x < p
    ensures d * p + x < e * p + y
  {
    Scaled(d + 1, e, p);
    assert (d + 1) * p == d * p + p;
  }

  lemma {:induction false} PowGrows(m: nat, n: nat)
    requires m <= n
    ensures Pow10(m) <= Pow10(n)
  {
    if m < n {
      PowGrows(m, n - 1);
    }
  }

  predicate NoLeadingZero(s: Str) {
    s != [] && (s[0] == 0x30 ==> |s| == 1)
  }

  lemma LongerIsMore(a: Str, b: Str)
    requires AllDigits(a) && AllDigits(b) && NoLeadingZero(b) && 0 < |a| < |b|
    ensures Decimal(a) < Decimal(b)
  {
    DecimalBelow(a);
    PowGrows(|a|, |b| - 1);
    Scaled(1, b[0] - 0x30, Pow10(|b| - 1));
  }

  lemma LastIndexIs()
    ensures AllDigits(LAST_INDEX) && |LAST_INDEX| == 10 && Decimal(LAST_INDEX) == 4294967294
  {
    Ten(LAST_INDEX);
  }

  lemma LastSix(s: Str)
    requires s == Ascii("4294967294")
    ensures AllDigits(s[4..]) && Decimal(s[4..]) == 967294
  {
    assert Pow10(0) == 1 && Pow10(1) == 10 && Pow10(2) == 100 && Pow10(3) == 1000;
    assert Pow10(4) == 10000 && Pow10(5) == 100000;
    assert Decimal(s[10..]) == 0;
    assert s[9..][1..] == s[10..] && Decimal(s[9..]) == 4;
    assert s[8..][1..] == s[9..] && Decimal(s[8..]) == 94;
    assert s[7..][1..] == s[8..] && Decimal(s[7..]) == 294;
    assert s[6..][1..] == s[7..] && Decimal(s[6..]) == 7294;
    assert s[5..][1..] == s[6..] && Decimal(s[5..]) == 67294;
    assert s[4..][1..] == s[5..];
  }

  lemma Ten(s: Str)
    requires s == Ascii("4294967294")
    ensures AllDigits(s) && Decimal(s) == 4294967294
  {
    assert Pow10(5) == 100000 && Pow10(6) == 1000000 && Pow10(7) == 10000000;
    assert Pow10(8) == 100000000 && Pow10(9) == 1000000000;
    LastSix(s);
    assert s[3..][1..] == s[4..] && Decimal(s[3..]) == 4967294;
    assert s[2..][1..] == s[3..] && Decimal(s[2..]) == 94967294;
    assert s[1..][1..] == s[2..] && Decimal(s[1..]) == 294967294;
  }

  /** An array index: a numeral without leading zeros of a number below 2^32 - 1. */
  predicate IsArrayIndex(key: Str) {
    AllDigits(key) && NoLeadingZero(key) && Decimal(key) < 0xFFFF_FFFF
  }

  lemma IndexIff(key: Str)
    ensures IsIndex(key) <==> IsArrayIndex(key)
  {
    if AllDigits(key) && NoLeadingZero(key) {
      LastIndexIs();
      if |key| < 10 {
        LongerIsMore(key, LAST_INDEX);
      } else if |key| == 10 {
        SameLengthOrder(LAST_INDEX, key);
      } else {
        LongerIsMore(LAST_INDEX, key);
      }
    }
  }

  lemma BelowIsLess(a: Str, b: Str)
    requires IsIndex(a) && IsIndex(b)
    ensures AllDigits(a) && AllDigits(b) && (BelowIndex(a, b) <==> Decimal(a) < Decimal(b))
  {
    if |a| == |b| {
      SameLengthOrder(a, b);
    } else if |a| < |b| {
      LongerIsMore(a, b);
    } else {
      LongerIsMore(b, a);
    }
  }

  /** At the first place where the two differ `a` has the lower unit, or ends. */
  predicate LowerAt(a: Str, b: Str, n: nat) {
    n <= |a| && n < |b| && a[..n] == b[..n] && (n == |a| || a[n] < b[n])
  }

  lemma {:induction false} BeforeIff(a: Str, b: Str)
    ensures Before(a, b) <==> exists n: nat :: LowerAt(a, b, n)
  {
    if a == [] || b == [] {
      assert b != [] ==> LowerAt(a, b, 0);
    } else {
      BeforeIff(a[1..], b[1..]);
      if a[0] == b[0] && Before(a[1..], b[1..]) {
        var n: nat :| LowerAt(a[1..], b[1..], n);
        assert a[..n + 1] == [a[0]] + a[1..][..n] && b[..n + 1] == [b[0]] + b[1..][..n];
        assert LowerAt(a, b, n + 1);
      } else if a[0] < b[0] {
        assert LowerAt(a, b, 0);
      }
      forall n: nat | LowerAt(a, b, n) ensures Before(a, b) {
        if n > 0 {
          assert a[0] == a[..n][0] == b[..n][0] == b[0];
          assert a[1..][..n - 1] == a[..n][1..] && b[1..][..n - 1] == b[..n][1..];
          assert LowerAt(a[1..], b[1..], n - 1);
        }
      }
    }
  }

  /** Indices come first, ascending as numbers; the other keys follow by their code units. */
  ghost predicate Ascends(a: Str, b: Str) {
    if IsArrayIndex(a) then !IsArrayIndex(b) || Decimal(a) < Decimal(b)
    else !IsArrayIndex(b) && exists n: nat :: LowerAt(a, b, n)
  }

  lemma KeyLessIff(a: Str, b: Str)
    ensures KeyLess(a, b) <==> Ascends(a, b)
  {
    IndexIff(a);
    IndexIff(b);
    BeforeIff(a, b);
    if IsIndex(a) && IsIndex(b) {
      BelowIsLess(a, b);
    }
  }

  function KeysOf(members: Members): seq<Str> {
    if members.NoMembers? then [] else [members.key] + KeysOf(members.rest)
  }

  /** In every object, at every depth, each key stands before those it precedes. */
  ghost predicate InOrderThroughout(v: Value) {
    match v
    case Array(items) => ItemsInOrder(items)
    case Object(members) =>
      && (forall i, j :: 0 <= i < j < |KeysOf(members)| ==> Ascends(KeysOf(members)[i], KeysOf(members)[j]))
      && MembersInOrder(members)
    case _ => true
  }

  ghost predicate ItemsInOrder(items: Items) {
    items.Item? ==> InOrderThroughout(items.first) && ItemsInOrder(items.rest)
  }

  ghost predicate MembersInOrder(members: Members) {
    members.Member? ==> InOrderThroughout(members.value) && MembersInOrder(members.rest)
  }

  lemma {:induction false} AfterAscends(members: Members, key: Str, i: nat)
    requires AllAfter(members, key) && i < |KeysOf(members)|
    ensures Ascends(key, KeysOf(members)[i])
  {
    if i == 0 {
      KeyLessIff(key, members.key);
    } else {
      AfterAscends(members.rest, key, i - 1);
    }
  }

  lemma {:induction false} SortedAscends(members: Members, i: nat, j: nat)
    requires KeySorted(members) && i < j < |KeysOf(members)|
    ensures Ascends(KeysOf(members)[i], KeysOf(members)[j])
  {
    if i == 0 {
      AfterAscends(members.rest, members.key, j - 1);
    } else {
      SortedAscends(members.rest, i - 1, j - 1);
    }
  }

  lemma {:induction false} SortedIsInOrder(v: Value)
    requires IsValue(v)
    ensures InOrderThroughout(SortedValue(v))
  {
    match v
    case Array(items) =>
      SortedItemsInOrder(items);
    case Object(members) =>
      InOrderIsSorted(members);
      var sorted := InOrder(members);
      forall i, j | 0 <= i < j < |KeysOf(sorted)| ensures Ascends(KeysOf(sorted)[i], KeysOf(sorted)[j]) {
        SortedAscends(sorted, i, j);
      }
      SortedMembersInOrder(members);
    case _ =>
  }

  lemma {:induction false} SortedItemsInOrder(items: Items)
    requires AreValues(items)
    ensures ItemsInOrder(SortedItems(items))
  {
    if items.Item? {
      SortedIsInOrder(items.first);
      SortedItemsInOrder(items.rest);
    }
  }

  lemma {:induction false} SortedMembersInOrder(members: Members)
    requires AreMembers(members)
    ensures MembersInOrder(InOrder(members))
  {
    if members.Member? {
      SortedIsInOrder(members.value);
      SortedMembersInOrder(members.rest);
      PlacedInOrder(InOrder(members.rest), members.key, SortedValue(members.value));
    }
  }

  lemma {:induction false} PlacedInOrder(members: Members, key: Str, value: Value)
    requires MembersInOrder(members) && InOrderThroughout(value)
    ensures MembersInOrder(Place(members, key, value))
  {
    if members.Member? {
      PlacedInOrder(members.rest, key, value);
    }
  }

  /**
   The canonical text is a value printed, laid out without white space outside strings and without a surrogate alone,
   whose keys ascend in every object.
   */
  lemma CanonicalIsLaidOut(v: Value)
    requires IsValue(v)
    ensures Canonical(v) == Print(SortedValue(v)) && InOrderThroughout(SortedValue(v))
    ensures Walk(Canonical(v), Outside) == Some(Outside)
    ensures WellFormed(Canonical(v))
  {
    SortedIsInOrder(v);
    SortedValueIsValue(v);
    PrintIsTight(SortedValue(v));
    PrintIsWellFormed(SortedValue(v));
  }
}
