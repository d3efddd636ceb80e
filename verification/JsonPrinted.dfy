/**
 What printed JSON looks like, unit by unit: which units of a string are escaped and how, that everything else stands as
 it is, how arrays and objects are laid out, and that no white space stands outside a string.
 */
module JsonPrinted {
  import opened Wrappers
  import opened Text
  import opened Json

  // ---- strings ----

  /** Nothing in the text that has to be escaped: no control, quote or backslash, and no surrogate alone. */
  predicate IsPlain(text: Str) {
    WellFormed(text) && forall i :: 0 <= i < |text| ==> text[i] >= 0x20 && text[i] != QUOTE && text[i] != BACKSLASH
  }

  lemma {:induction false} PlainStays(text: Str)
    requires IsPlain(text)
    ensures Escape(text) == text
    decreases |text|
  {
    if text == [] {
    } else if PairFirst(text) {
      PlainStays(text[2..]);
      assert text == [text[0], text[1]] + text[2..];
    } else {
      PlainStays(text[1..]);
      assert text == [text[0]] + text[1..];
    }
  }

  /** A plain text is printed as itself between quotes, whatever its script. */
  lemma PlainPrintsAsItself(text: Str)
    requires IsPlain(text)
    ensures Print(String(text)) == [QUOTE] + text + [QUOTE]
  {
    PlainStays(text);
  }

  function Lower(c: Unit): (n: nat) {
    if IsDigit(c) then c - 0x30 else if 0x61 <= c <= 0x66 then c - 0x61 + 10 else 16
  }

  /** Four lower-case hexadecimal digits and the number they write. */
  predicate WritesHex(s: Str, c: Unit) {
    && |s| == 4 && (forall i :: 0 <= i < 4 ==> Lower(s[i]) < 16)
    && ((Lower(s[0]) * 16 + Lower(s[1])) * 16 + Lower(s[2])) * 16 + Lower(s[3]) == c
  }

  /** The two-unit escapes of section 7 of RFC 8259 that are written: the unit after the backslash. */
  const SHORT: map<Unit, Unit> :=
    map[0x22 := 0x22, 0x5C := 0x5C, 0x08 := 0x62, 0x0C := 0x66, 0x0A := 0x6E, 0x0D := 0x72, 0x09 := 0x74]

  /**
   How a unit by itself is printed: quote, backslash, backspace, form feed, line feed, carriage return and tab by the
   short escape; any other control, and a surrogate alone, as a four-digit escape; everything else as it is.
   */
  predicate Spelled(c: Unit, s: Str) {
    if c in SHORT then s == [BACKSLASH, SHORT[c]]
    else if c < 0x20 || 0xD800 <= c < 0xE000 then |s| == 6 && s[..2] == [BACKSLASH, 0x75] && WritesHex(s[2..], c)
    else s == [c]
  }

  lemma HexOf(c: Unit)
    ensures WritesHex(UnicodeEscape(c)[2..], c)
  {
    var s := UnicodeEscape(c)[2..];
    var q, r := c / 16, c / 16 / 16;
    assert c == 16 * q + c % 16 && q == 16 * r + q % 16 && r == 16 * (r / 16) + r % 16;
    assert Lower(s[0]) == r / 16 && Lower(s[1]) == r % 16 && Lower(s[2]) == q % 16 && Lower(s[3]) == c % 16;
  }

  lemma UnitIsSpelled(c: Unit) returns (s: Str)
    ensures Print(String([c])) == [QUOTE] + s + [QUOTE] && Spelled(c, s)
  {
    s := EscapeUnit(c);
    var rest := [c][1..];
    assert rest == [] && Escape(rest) == [];
    assert Escape([c]) == s + [];
    HexOf(c);
  }

  lemma PairPrintsAsItself(high: Unit, low: Unit)
    requires IsHigh(high) && IsLow(low)
    ensures Print(String([high, low])) == [QUOTE, high, low, QUOTE]
  {
    assert IsPlain([high, low]) by {
      assert [high, low][2..] == [];
    }
    PlainPrintsAsItself([high, low]);
  }

  /** A surrogate pair would come about where the two texts meet. */
  predicate MeetInPair(a: Str, b: Str) {
    a != [] && b != [] && IsHigh(a[|a| - 1]) && IsLow(b[0])
  }

  lemma {:induction false} EscapeJoins(a: Str, b: Str)
    requires !MeetInPair(a, b)
    ensures Escape(a + b) == Escape(a) + Escape(b)
    decreases |a|
  {
    if a == [] {
      assert a + b == b;
    } else if PairFirst(a) {
      assert (a + b)[2..] == a[2..] + b;
      EscapeJoins(a[2..], b);
      Regrouped([a[0], a[1]], Escape(a[2..]), Escape(b));
    } else {
      assert (a + b)[1..] == a[1..] + b && !PairFirst(a + b);
      EscapeJoins(a[1..], b);
      Regrouped(EscapeUnit(a[0]), Escape(a[1..]), Escape(b));
    }
  }

  /** What stands between the quotes. */
  function Within(printed: Str): Str
    requires |printed| >= 2
  {
    printed[1..|printed| - 1]
  }

  /** Printing goes unit by unit, so how units and pairs are printed settles how every text is. */
  lemma TextsJoin(a: Str, b: Str)
    requires !MeetInPair(a, b)
    ensures var p, q := Print(String(a)), Print(String(b));
            |p| >= 2 && |q| >= 2 && Print(String(a + b)) == [QUOTE] + Within(p) + Within(q) + [QUOTE]
  {
    EscapeJoins(a, b);
    WithinQuotes(Escape(a));
    WithinQuotes(Escape(b));
    Regrouped([QUOTE], Escape(a), Escape(b));
  }

  lemma WithinQuotes(s: Str)
    ensures Within([QUOTE] + s + [QUOTE]) == s
  {
  }

  lemma Regrouped(a: Str, b: Str, c: Str)
    ensures a + (b + c) == a + b + c
  {
  }

  // ---- layout ----

  function Joined(texts: seq<Str>, mark: Str): Str {
    if texts == [] then [] else if |texts| == 1 then texts[0] else texts[0] + mark + Joined(texts[1..], mark)
  }

  function ItemTexts(items: Items): seq<Str> {
    if items.NoItems? then [] else [Print(items.first)] + ItemTexts(items.rest)
  }

  function MemberTexts(members: Members): seq<Str> {
    if members.NoMembers? then []
    else [Print(String(members.key)) + Ascii(":") + Print(members.value)] + MemberTexts(members.rest)
  }

  lemma {:induction false} ItemsAreJoined(items: Items)
    ensures PrintItems(items) == Joined(ItemTexts(items), Ascii(","))
  {
    if items.Item? {
      ItemsAreJoined(items.rest);
      assert ItemTexts(items)[1..] == ItemTexts(items.rest);
    }
  }

  lemma {:induction false} MembersAreJoined(members: Members)
    ensures PrintMembers(members) == Joined(MemberTexts(members), Ascii(","))
  {
    if members.Member? {
      MembersAreJoined(members.rest);
      assert MemberTexts(members)[1..] == MemberTexts(members.rest);
      assert [COLON] == Ascii(":") && [COMMA] == Ascii(",");
    }
  }

  /** Items and members in their order, separated and enclosed by the structural characters of section 2 of RFC 8259. */
  lemma PrintIsLaidOut(v: Value)
    ensures v.Null? ==> Print(v) == Ascii("null")
    ensures v.Bool? ==> Print(v) == Ascii(if v.b then "true" else "false")
    ensures v.Number? ==> Print(v) == v.numeral
    ensures v.Array? ==> Print(v) == Ascii("[") + Joined(ItemTexts(v.items), Ascii(",")) + Ascii("]")
    ensures v.Object? ==> Print(v) == Ascii("{") + Joined(MemberTexts(v.members), Ascii(",")) + Ascii("}")
  {
    match v
    case Array(items) => ArrayIsLaidOut(items);
    case Object(members) => ObjectIsLaidOut(members);
    case _ =>
  }

  lemma ArrayIsLaidOut(items: Items)
    ensures Print(Array(items)) == Ascii("[") + Joined(ItemTexts(items), Ascii(",")) + Ascii("]")
  {
    ItemsAreJoined(items);
    assert [OPEN_BRACKET] == Ascii("[") && [CLOSE_BRACKET] == Ascii("]");
  }

  lemma ObjectIsLaidOut(members: Members)
    ensures Print(Object(members)) == Ascii("{") + Joined(MemberTexts(members), Ascii(",")) + Ascii("}")
  {
    MembersAreJoined(members);
    assert [OPEN_BRACE] == Ascii("{") && [CLOSE_BRACE] == Ascii("}");
  }

  // ---- no white space outside strings ----

  datatype Spot = Outside | Inside | Escaped

  predicate IsSpace(c: Unit) {
    c == 0x20 || c == 0x09 || c == 0x0A || c == 0x0D
  }

  function Stride(at: Spot, c: Unit): Option<Spot> {
    match at
    case Outside => if IsSpace(c) then None else Some(if c == QUOTE then Inside else Outside)
    case Inside => Some(if c == QUOTE then Outside else if c == BACKSLASH then Escaped else Inside)
    case Escaped => Some(Inside)
  }

  /** Where one stands after the text, or nowhere once white space was met outside a string. */
  function Walk(text: Str, at: Spot): Option<Spot> {
    if text == [] then Some(at)
    else
      var next := Stride(at, text[0]);
      if next == None then None else Walk(text[1..], next.value)
  }

  lemma {:induction false} WalkOn(a: Str, b: Str, at: Spot)
    ensures Walk(a + b, at) == if Walk(a, at) == None then None else Walk(b, Walk(a, at).value)
    decreases |a|
  {
    if a == [] {
      assert a + b == b;
    } else if Stride(at, a[0]).Some? {
      assert (a + b)[1..] == a[1..] + b;
      WalkOn(a[1..], b, Stride(at, a[0]).value);
    }
  }

  predicate Quiet(s: Str) {
    forall i :: 0 <= i < |s| ==> s[i] != QUOTE && s[i] != BACKSLASH
  }

  lemma {:induction false} QuietStaysInside(s: Str)
    requires Quiet(s)
    ensures Walk(s, Inside) == Some(Inside)
  {
    if s != [] {
      QuietStaysInside(s[1..]);
    }
  }

  lemma {:induction false} QuietStaysOutside(s: Str)
    requires Quiet(s) && forall i :: 0 <= i < |s| ==> !IsSpace(s[i])
    ensures Walk(s, Outside) == Some(Outside)
  {
    if s != [] {
      QuietStaysOutside(s[1..]);
    }
  }

  lemma UnitStaysInside(c: Unit)
    ensures Walk(EscapeUnit(c), Inside) == Some(Inside)
  {
    var s := EscapeUnit(c);
    if s[0] == BACKSLASH {
      var rest := s[1..];
      assert rest[1..] == s[2..] && Quiet(s[2..]);
      QuietStaysInside(s[2..]);
      assert Walk(s, Inside) == Walk(rest, Escaped) == Walk(rest[1..], Inside);
    } else {
      QuietStaysInside(s);
    }
  }

  lemma {:induction false} EscapeStaysInside(text: Str)
    ensures Walk(Escape(text), Inside) == Some(Inside)
    decreases |text|
  {
    if text == [] {
    } else if PairFirst(text) {
      EscapeStaysInside(text[2..]);
      QuietStaysInside([text[0], text[1]]);
      WalkOn([text[0], text[1]], Escape(text[2..]), Inside);
    } else {
      EscapeStaysInside(text[1..]);
      UnitStaysInside(text[0]);
      WalkOn(EscapeUnit(text[0]), Escape(text[1..]), Inside);
    }
  }

  lemma UnitOutside(c: Unit)
    requires !IsSpace(c) && c != QUOTE
    ensures Walk([c], Outside) == Some(Outside)
  {
    UnitWalks(c, Outside);
  }

  lemma UnitWalks(c: Unit, at: Spot)
    ensures Walk([c], at) == Stride(at, c)
  {
    var rest := [c][1..];
    assert rest == [];
  }

  lemma QuoteIsTight(text: Str)
    ensures Walk(Quote(text), Outside) == Some(Outside)
  {
    EscapeStaysInside(text);
    UnitWalks(QUOTE, Outside);
    UnitWalks(QUOTE, Inside);
    WalkOn([QUOTE], Escape(text), Outside);
    WalkOn([QUOTE] + Escape(text), [QUOTE], Outside);
  }

  /** Two tight texts in a row. */
  lemma TightOn(a: Str, b: Str)
    requires Walk(a, Outside) == Some(Outside) && Walk(b, Outside) == Some(Outside)
    ensures Walk(a + b, Outside) == Some(Outside)
  {
    WalkOn(a, b, Outside);
  }

  lemma Enclosed(open: Unit, inner: Str, close: Unit)
    requires !IsSpace(open) && open != QUOTE && !IsSpace(close) && close != QUOTE
    requires Walk(inner, Outside) == Some(Outside)
    ensures Walk([open] + inner + [close], Outside) == Some(Outside)
  {
    UnitOutside(open);
    UnitOutside(close);
    TightOn([open], inner);
    TightOn([open] + inner, [close]);
  }

  /** The printed text is one run of tokens: white space stands only inside strings, and every string is closed. */
  lemma {:induction false} PrintIsTight(v: Value)
    requires IsValue(v)
    ensures Walk(Print(v), Outside) == Some(Outside)
  {
    match v
    case Null => QuietStaysOutside(Print(v));
    case Bool(_) => QuietStaysOutside(Print(v));
    case Number(numeral) => QuietStaysOutside(numeral);
    case String(text) => QuoteIsTight(text);
    case Array(items) =>
      ItemsAreTight(items);
      Enclosed(OPEN_BRACKET, PrintItems(items), CLOSE_BRACKET);
    case Object(members) =>
      MembersAreTight(members);
      Enclosed(OPEN_BRACE, PrintMembers(members), CLOSE_BRACE);
  }

  lemma {:induction false} ItemsAreTight(items: Items)
    requires AreValues(items)
    ensures Walk(PrintItems(items), Outside) == Some(Outside)
  {
    if items.Item? {
      PrintIsTight(items.first);
      if items.rest.Item? {
        ItemsAreTight(items.rest);
        UnitOutside(COMMA);
        TightOn(Print(items.first), [COMMA]);
        TightOn(Print(items.first) + [COMMA], PrintItems(items.rest));
      }
    }
  }

  lemma {:induction false} MembersAreTight(members: Members)
    requires AreMembers(members)
    ensures Walk(PrintMembers(members), Outside) == Some(Outside)
  {
    if members.Member? {
      QuoteIsTight(members.key);
      PrintIsTight(members.value);
      UnitOutside(COLON);
      TightOn(Quote(members.key), [COLON]);
      TightOn(Quote(members.key) + [COLON], Print(members.value));
      if members.rest.Member? {
        MembersAreTight(members.rest);
        UnitOutside(COMMA);
        TightOn(Quote(members.key) + [COLON] + Print(members.value), [COMMA]);
        TightOn(Quote(members.key) + [COLON] + Print(members.value) + [COMMA], PrintMembers(members.rest));
      }
    }
  }
}
