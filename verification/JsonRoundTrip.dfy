/** `JSON.parse` undoes `JSON.stringify` on every value, and the text printed can be written as UTF-8 without loss. */
module JsonRoundTrip {
  import opened Wrappers
  import opened Text
  import opened Json

  // ---- strings ----

  lemma FourDigits(c: Unit)
    ensures FromHex(c / 16 / 16 / 16, c / 16 / 16 % 16, c / 16 % 16, c % 16) == c
  {
    var q, r := c / 16, c / 16 / 16;
    assert c == 16 * q + c % 16 && q == 16 * r + q % 16 && r == 16 * (r / 16) + r % 16;
  }

  lemma HexComesBack(c: Unit, s: Str)
    requires |s| >= 5 && s[..5] == UnicodeEscape(c)[1..]
    ensures Unescape(s) == Some((c, 5))
  {
    var t := s[..5];
    assert s[0] == t[0] == 0x75;
    assert s[1] == t[1] == HexDigit(c / 16 / 16 / 16) && s[2] == t[2] == HexDigit(c / 16 / 16 % 16);
    assert s[3] == t[3] == HexDigit(c / 16 % 16) && s[4] == t[4] == HexDigit(c % 16);
    HexValueOfDigit(c / 16 / 16 / 16);
    HexValueOfDigit(c / 16 / 16 % 16);
    HexValueOfDigit(c / 16 % 16);
    HexValueOfDigit(c % 16);
    FourDigits(c);
  }

  lemma PlainComesBack(c: Unit, tail: Str)
    requires ParseString(tail).Got? && c >= 0x20 && c != QUOTE && c != BACKSLASH
    ensures ParseString([c] + tail) == Got([c] + ParseString(tail).value, ParseString(tail).rest)
  {
    assert ([c] + tail)[1..] == tail;
  }

  lemma EscapedComesBack(c: Unit, escape: Str, tail: Str)
    requires escape != [] && Unescape(escape + tail) == Some((c, |escape|)) && ParseString(tail).Got?
    ensures ParseString([BACKSLASH] + escape + tail) == Got([c] + ParseString(tail).value, ParseString(tail).rest)
  {
    var s := [BACKSLASH] + escape + tail;
    assert s[1..] == escape + tail;
    assert s[1 + |escape|..] == tail;
  }

  /** What stands after the backslash of an escaped unit is read as that unit. */
  lemma EscapeComesBack(c: Unit, tail: Str)
    requires EscapeUnit(c)[0] == BACKSLASH
    ensures var escape := EscapeUnit(c)[1..]; escape != [] && Unescape(escape + tail) == Some((c, |escape|))
  {
    var escape := EscapeUnit(c)[1..];
    if |escape| == 5 {
      assert (escape + tail)[..5] == escape;
      HexComesBack(c, escape + tail);
    } else {
      assert (escape + tail)[0] == EscapeUnit(c)[1];
    }
  }

  /** One unit, escaped or not, is read as itself. */
  lemma UnitComesBack(c: Unit, tail: Str)
    requires ParseString(tail).Got?
    ensures ParseString(EscapeUnit(c) + tail) == Got([c] + ParseString(tail).value, ParseString(tail).rest)
  {
    var s := EscapeUnit(c);
    if s[0] == BACKSLASH {
      EscapeComesBack(c, tail);
      EscapedComesBack(c, s[1..], tail);
      assert [BACKSLASH] + s[1..] == s;
    } else {
      PlainComesBack(c, tail);
    }
  }

  lemma Regroup(a: Str, b: Str, c: Str, d: Str)
    ensures a + b + c + d == a + (b + c + d)
  {
    assert a + b + c == a + (b + c);
    assert a + (b + c) + d == a + (b + c + d);
  }

  lemma Rejoin(s: Str)
    requires s != []
    ensures [s[0]] + s[1..] == s
  {
  }

  lemma PairComesBack(a: Unit, b: Unit, tail: Str)
    requires ParseString(tail).Got? && IsHigh(a) && IsLow(b)
    ensures ParseString([a, b] + tail) == Got([a, b] + ParseString(tail).value, ParseString(tail).rest)
  {
    PlainComesBack(b, tail);
    PlainComesBack(a, [b] + tail);
    assert [a, b] + tail == [a] + ([b] + tail);
    assert [a, b] + ParseString(tail).value == [a] + ([b] + ParseString(tail).value);
  }

  lemma RejoinPair(s: Str)
    requires |s| >= 2
    ensures [s[0], s[1]] + s[2..] == s
  {
  }

  lemma StringEnds(rest: Str)
    ensures ParseString([] + [QUOTE] + rest) == Got([], rest)
  {
    assert ([] + [QUOTE] + rest)[1..] == rest;
  }

  lemma {:induction false} StringComesBack(text: Str, rest: Str)
    ensures ParseString(Escape(text) + [QUOTE] + rest) == Got(text, rest)
    decreases |text|
  {
    if text == [] {
      StringEnds(rest);
    } else if PairFirst(text) {
      StringComesBack(text[2..], rest);
      PairComesBack(text[0], text[1], Escape(text[2..]) + [QUOTE] + rest);
      Regroup([text[0], text[1]], Escape(text[2..]), [QUOTE], rest);
      RejoinPair(text);
    } else {
      StringComesBack(text[1..], rest);
      UnitComesBack(text[0], Escape(text[1..]) + [QUOTE] + rest);
      Regroup(EscapeUnit(text[0]), Escape(text[1..]), [QUOTE], rest);
      Rejoin(text);
    }
  }

  // ---- numbers ----

  predicate Delimited(rest: Str) {
    rest == [] || !IsNumeralUnit(rest[0])
  }

  lemma {:induction false} NumeralRunStops(numeral: Str, rest: Str)
    requires forall i :: 0 <= i < |numeral| ==> IsNumeralUnit(numeral[i])
    requires Delimited(rest)
    ensures NumeralRun(numeral + rest) == |numeral|
  {
    if numeral == [] {
      assert numeral + rest == rest;
    } else {
      NumeralRunStops(numeral[1..], rest);
      assert (numeral + rest)[1..] == numeral[1..] + rest;
    }
  }

  lemma NumeralComesBack(numeral: Str, rest: Str)
    requires IsNumeral(numeral) && Delimited(rest)
    ensures ParseNumber(numeral + rest) == Got(Number(numeral), rest)
  {
    var s := numeral + rest;
    NumeralRunStops(numeral, rest);
    assert s[..|numeral|] == numeral && s[|numeral|..] == rest;
  }

  lemma NumberComesBack(numeral: Str, rest: Str)
    requires IsNumeral(numeral) && Delimited(rest)
    ensures ParseValue(numeral + rest) == Got(Number(numeral), rest)
  {
    var s := numeral + rest;
    NumeralComesBack(numeral, rest);
    assert s[0] == numeral[0] && (IsDigit(s[0]) || s[0] == 0x2D);
  }

  // ---- values ----

  lemma WordComesBack(word: string, v: Value, rest: Str)
    requires word != "" && forall i :: 0 <= i < |word| ==> word[i] as int < 128
    ensures ParseWord(Ascii(word) + rest, Ascii(word), v) == Got(v, rest)
  {
    assert (Ascii(word) + rest)[|Ascii(word)|..] == rest;
  }

  /** A printed value starts with something no parser skips, and not with a closing bracket. */
  lemma PrintStarts(v: Value)
    requires IsValue(v)
    ensures Print(v) != [] && SkipSpace(Print(v)) == Print(v)
    ensures Print(v)[0] != CLOSE_BRACKET && Print(v)[0] != CLOSE_BRACE
  {
  }

  lemma StartsStill(a: Str, b: Str)
    requires a != [] && SkipSpace(a) == a
    ensures SkipSpace(a + b) == a + b
  {
    assert (a + b)[0] == a[0];
  }

  lemma WordsComeBack(v: Value, rest: Str)
    requires v.Null? || v.Bool?
    ensures ParseValue(Print(v) + rest) == Got(v, rest)
  {
    var word := if v.Null? then "null" else if v.b then "true" else "false";
    WordComesBack(word, v, rest);
    assert Print(v) == Ascii(word);
    assert (Print(v) + rest)[0] == word[0] as int;
  }

  lemma TextComesBack(text: Str, rest: Str)
    ensures ParseValue(Quote(text) + rest) == Got(String(text), rest)
  {
    var s := Quote(text) + rest;
    Regroup([QUOTE], Escape(text), [QUOTE], rest);
    assert s[1..] == Escape(text) + [QUOTE] + rest;
    StringComesBack(text, rest);
  }

  lemma {:induction false} ValueComesBack(v: Value, rest: Str)
    requires IsValue(v) && Delimited(rest)
    ensures ParseValue(Print(v) + rest) == Got(v, rest)
    decreases v
  {
    match v
    case Null => WordsComeBack(v, rest);
    case Bool(b) => WordsComeBack(v, rest);
    case Number(numeral) => NumberComesBack(numeral, rest);
    case String(text) => TextComesBack(text, rest);
    case Array(items) => ArrayComesBack(items, rest);
    case Object(members) => ObjectComesBack(members, rest);
  }

  lemma {:induction false} ArrayComesBack(items: Items, rest: Str)
    requires AreValues(items)
    ensures ParseValue(Print(Array(items)) + rest) == Got(Array(items), rest)
    decreases items, 1
  {
    var s := Print(Array(items)) + rest;
    var inner := PrintItems(items) + [CLOSE_BRACKET] + rest;
    assert s[1..] == inner;
    if items.NoItems? {
      assert inner == [CLOSE_BRACKET] + rest;
      assert inner[1..] == rest;
    } else {
      ItemsComeBack(items, rest);
    }
  }

  lemma LastItem(v: Value, s: Str, rest: Str)
    requires ParseValue(s) == Got(v, [CLOSE_BRACKET] + rest)
    ensures ParseItems(s) == Got(Item(v, NoItems), rest)
  {
    assert ([CLOSE_BRACKET] + rest)[1..] == rest;
  }

  lemma NextItem(v: Value, s: Str, tail: Str, more: Items, rest: Str)
    requires ParseValue(s) == Got(v, [COMMA] + tail) && ParseItems(tail) == Got(more, rest)
    ensures ParseItems(s) == Got(Item(v, more), rest)
  {
    assert ([COMMA] + tail)[1..] == tail;
  }

  lemma {:induction false} ItemsComeBack(items: Items, rest: Str)
    requires items.Item? && AreValues(items)
    ensures var inner := PrintItems(items) + [CLOSE_BRACKET] + rest;
            SkipSpace(inner) == inner && inner[0] != CLOSE_BRACKET && ParseItems(inner) == Got(items, rest)
    decreases items, 0
  {
    var inner := PrintItems(items) + [CLOSE_BRACKET] + rest;
    var v := items.first;
    PrintStarts(v);
    if items.rest.NoItems? {
      var after := [CLOSE_BRACKET] + rest;
      assert inner == Print(v) + after;
      StartsStill(Print(v), after);
      ValueComesBack(v, after);
      LastItem(v, inner, rest);
    } else {
      var tail := PrintItems(items.rest) + [CLOSE_BRACKET] + rest;
      var after := [COMMA] + tail;
      assert inner == Print(v) + after;
      StartsStill(Print(v), after);
      ValueComesBack(v, after);
      ItemsComeBack(items.rest, rest);
      NextItem(v, inner, tail, items.rest, rest);
    }
  }

  lemma {:induction false} ObjectComesBack(members: Members, rest: Str)
    requires IsValue(Object(members))
    ensures ParseValue(Print(Object(members)) + rest) == Got(Object(members), rest)
    decreases members, 1
  {
    var s := Print(Object(members)) + rest;
    var inner := PrintMembers(members) + [CLOSE_BRACE] + rest;
    assert s[1..] == inner;
    if members.NoMembers? {
      assert inner == [CLOSE_BRACE] + rest;
      assert inner[1..] == rest;
    } else {
      MembersComeBack(members, rest);
      PutAllInOrder(members);
    }
  }

  lemma LastMember(key: Str, v: Value, s: Str, colon: Str, rest: Str)
    requires ParseKey(s) == Got(key, colon) && ParseValue(colon) == Got(v, [CLOSE_BRACE] + rest)
    ensures ParseMembers(s) == Got(Member(key, v, NoMembers), rest)
  {
    assert ([CLOSE_BRACE] + rest)[1..] == rest;
  }

  lemma NextMember(key: Str, v: Value, s: Str, colon: Str, tail: Str, more: Members, rest: Str)
    requires ParseKey(s) == Got(key, colon) && ParseValue(colon) == Got(v, [COMMA] + tail)
    requires ParseMembers(tail) == Got(more, rest)
    ensures ParseMembers(s) == Got(Member(key, v, more), rest)
  {
    assert ([COMMA] + tail)[1..] == tail;
  }

  lemma KeyComesBack(key: Str, colon: Str)
    ensures ParseKey(Quote(key) + ([COLON] + colon)) == Got(key, colon)
  {
    var s := Quote(key) + ([COLON] + colon);
    Regroup([QUOTE], Escape(key), [QUOTE], [COLON] + colon);
    assert s[1..] == Escape(key) + [QUOTE] + ([COLON] + colon);
    StringComesBack(key, [COLON] + colon);
    assert ([COLON] + colon)[1..] == colon;
  }

  lemma LastMemberPrints(key: Str, v: Value, rest: Str)
    ensures PrintMembers(Member(key, v, NoMembers)) + [CLOSE_BRACE] + rest
         == Quote(key) + ([COLON] + (Print(v) + ([CLOSE_BRACE] + rest)))
  {
  }

  lemma RegroupMember(a: Str, b: Str, c: Str, d: Str, e: Str, f: Str, g: Str)
    ensures a + b + c + d + e + f + g == a + (b + (c + (d + (e + f + g))))
  {
    assert a + b + c + d + e + f + g == (a + b + c) + (d + (e + f + g));
  }

  lemma NextMemberPrints(key: Str, v: Value, more: Members, rest: Str)
    requires more.Member?
    ensures PrintMembers(Member(key, v, more)) + [CLOSE_BRACE] + rest
         == Quote(key) + ([COLON] + (Print(v) + ([COMMA] + (PrintMembers(more) + [CLOSE_BRACE] + rest))))
  {
    RegroupMember(Quote(key), [COLON], Print(v), [COMMA], PrintMembers(more), [CLOSE_BRACE], rest);
  }

  lemma {:induction false} MembersComeBack(members: Members, rest: Str)
    requires members.Member? && AreMembers(members)
    ensures var inner := PrintMembers(members) + [CLOSE_BRACE] + rest;
            inner[0] == QUOTE && ParseMembers(inner) == Got(members, rest)
    decreases members, 0
  {
    var inner := PrintMembers(members) + [CLOSE_BRACE] + rest;
    var key, v, more := members.key, members.value, members.rest;
    if more.NoMembers? {
      LastMemberPrints(key, v, rest);
      var after := [CLOSE_BRACE] + rest;
      ValueComesBack(v, after);
      KeyComesBack(key, Print(v) + after);
      LastMember(key, v, inner, Print(v) + after, rest);
    } else {
      NextMemberPrints(key, v, more, rest);
      var tail := PrintMembers(more) + [CLOSE_BRACE] + rest;
      var after := [COMMA] + tail;
      ValueComesBack(v, after);
      MembersComeBack(more, rest);
      KeyComesBack(key, Print(v) + after);
      NextMember(key, v, inner, Print(v) + after, tail, more, rest);
    }
  }

  // ---- putting members into an object ----

  function Append(a: Members, b: Members): Members {
    if a.NoMembers? then b else Member(a.key, a.value, Append(a.rest, b))
  }

  lemma {:induction false} AppendMember(a: Members, key: Str, value: Value, b: Members)
    ensures Append(Append(a, Member(key, value, NoMembers)), b) == Append(a, Member(key, value, b))
  {
    if a.Member? {
      AppendMember(a.rest, key, value, b);
    }
  }

  lemma {:induction false} HasKeyAppend(a: Members, b: Members, key: Str)
    ensures HasKey(Append(a, b), key) <==> HasKey(a, key) || HasKey(b, key)
  {
    if a.Member? {
      HasKeyAppend(a.rest, b, key);
    }
  }

  lemma {:induction false} NoneGoesBeforeAppend(a: Members, b: Members, key: Str)
    ensures NoneGoesBefore(Append(a, b), key) <==> NoneGoesBefore(a, key) && NoneGoesBefore(b, key)
  {
    if a.Member? {
      NoneGoesBeforeAppend(a.rest, b, key);
    }
  }

  /** A new key that goes before none of the old ones is put last. */
  lemma {:induction false} PutGoesLast(a: Members, b: Members)
    requires b.Member? && Distinct(Append(a, b)) && Listed(Append(a, b))
    ensures !HasKey(a, b.key)
    ensures Insert(a, b.key, b.value) == Append(a, Member(b.key, b.value, NoMembers))
  {
    if a.Member? {
      PutGoesLast(a.rest, b);
      HasKeyAppend(a.rest, b, a.key);
      NoneGoesBeforeAppend(a.rest, b, a.key);
    }
  }

  lemma {:induction false} PutAllAppends(a: Members, b: Members)
    requires Distinct(Append(a, b)) && Listed(Append(a, b))
    ensures PutAll(a, b) == Append(a, b)
    decreases b
  {
    if b.NoMembers? {
      AppendNothing(a);
    } else {
      PutGoesLast(a, b);
      AppendMember(a, b.key, b.value, b.rest);
      PutAllAppends(Append(a, Member(b.key, b.value, NoMembers)), b.rest);
    }
  }

  lemma {:induction false} AppendNothing(a: Members)
    ensures Append(a, NoMembers) == a
  {
    if a.Member? {
      AppendNothing(a.rest);
    }
  }

  /** Members listed as an object lists them come out as they went in. */
  lemma PutAllInOrder(members: Members)
    requires Distinct(members) && Listed(members)
    ensures PutAll(NoMembers, members) == members
  {
    PutAllAppends(NoMembers, members);
  }

  // ---- what parsing and putting make is a value ----

  lemma {:induction false} BeforeTransitive(a: Str, b: Str, c: Str)
    requires Before(a, b) && Before(b, c)
    ensures Before(a, c)
  {
    if a != [] && a[0] == b[0] == c[0] {
      BeforeTransitive(a[1..], b[1..], c[1..]);
    }
  }

  lemma {:induction false} BeforeAsymmetric(a: Str, b: Str)
    requires Before(a, b)
    ensures !Before(b, a) && a != b
  {
    if a != [] && a[0] == b[0] {
      BeforeAsymmetric(a[1..], b[1..]);
    }
  }

  lemma {:induction false} BeforeTotal(a: Str, b: Str)
    ensures a == b || Before(a, b) || Before(b, a)
  {
    if a != [] && b != [] && a[0] == b[0] {
      BeforeTotal(a[1..], b[1..]);
      assert a == [a[0]] + a[1..] && b == [b[0]] + b[1..];
    }
  }

  lemma GoesBeforeTransitive(a: Str, b: Str, c: Str)
    requires GoesBefore(a, b) && GoesBefore(b, c)
    ensures GoesBefore(a, c)
  {
    if |a| == |b| == |c| && Before(a, b) && Before(b, c) {
      BeforeTransitive(a, b, c);
    }
  }

  lemma GoesBeforeAsymmetric(a: Str, b: Str)
    requires GoesBefore(a, b)
    ensures !GoesBefore(b, a)
  {
    if Before(a, b) {
      BeforeAsymmetric(a, b);
    }
  }

  lemma {:induction false} HasKeyInsert(members: Members, key: Str, value: Value, other: Str)
    ensures HasKey(Insert(members, key, value), other) <==> HasKey(members, other) || other == key
  {
    if members.Member? {
      HasKeyInsert(members.rest, key, value, other);
    }
  }

  lemma {:induction false} HasKeyReplace(members: Members, key: Str, value: Value, other: Str)
    ensures HasKey(Replace(members, key, value), other) <==> HasKey(members, other)
  {
    if members.Member? {
      HasKeyReplace(members.rest, key, value, other);
    }
  }

  lemma {:induction false} InsertKeepsDistinct(members: Members, key: Str, value: Value)
    requires Distinct(members) && !HasKey(members, key)
    ensures Distinct(Insert(members, key, value))
  {
    if members.Member? && !GoesBefore(key, members.key) {
      InsertKeepsDistinct(members.rest, key, value);
      HasKeyInsert(members.rest, key, value, members.key);
    }
  }

  lemma {:induction false} NoneGoesBeforeEarlier(members: Members, key: Str, earlier: Str)
    requires NoneGoesBefore(members, key) && GoesBefore(earlier, key)
    ensures NoneGoesBefore(members, earlier)
  {
    if members.Member? {
      NoneGoesBeforeEarlier(members.rest, key, earlier);
      if GoesBefore(members.key, earlier) {
        GoesBeforeTransitive(members.key, earlier, key);
      }
    }
  }

  lemma {:induction false} NoneGoesBeforeInsert(members: Members, key: Str, value: Value, other: Str)
    requires NoneGoesBefore(members, other) && !GoesBefore(key, other)
    ensures NoneGoesBefore(Insert(members, key, value), other)
  {
    if members.Member? && !GoesBefore(key, members.key) {
      NoneGoesBeforeInsert(members.rest, key, value, other);
    }
  }

  lemma {:induction false} InsertKeepsListed(members: Members, key: Str, value: Value)
    requires Listed(members)
    ensures Listed(Insert(members, key, value))
  {
    if members.Member? {
      if GoesBefore(key, members.key) {
        GoesBeforeAsymmetric(key, members.key);
        NoneGoesBeforeEarlier(members.rest, members.key, key);
      } else {
        InsertKeepsListed(members.rest, key, value);
        NoneGoesBeforeInsert(members.rest, key, value, members.key);
      }
    }
  }

  lemma {:induction false} NoneGoesBeforeReplace(members: Members, key: Str, value: Value, other: Str)
    requires NoneGoesBefore(members, other)
    ensures NoneGoesBefore(Replace(members, key, value), other)
  {
    if members.Member? {
      NoneGoesBeforeReplace(members.rest, key, value, other);
    }
  }

  lemma {:induction false} ReplaceKeepsValue(members: Members, key: Str, value: Value)
    requires IsValue(Object(members)) && IsValue(value)
    ensures IsValue(Object(Replace(members, key, value)))
  {
    if members.Member? && members.key != key {
      assert IsValue(Object(members.rest));
      ReplaceKeepsValue(members.rest, key, value);
      NoneGoesBeforeReplace(members.rest, key, value, members.key);
      HasKeyReplace(members.rest, key, value, members.key);
    }
  }

  lemma {:induction false} InsertKeepsMembers(members: Members, key: Str, value: Value)
    requires AreMembers(members) && IsValue(value)
    ensures AreMembers(Insert(members, key, value))
  {
    if members.Member? {
      InsertKeepsMembers(members.rest, key, value);
    }
  }

  lemma PutKeepsValue(members: Members, key: Str, value: Value)
    requires IsValue(Object(members)) && IsValue(value)
    ensures IsValue(Object(Put(members, key, value)))
  {
    if HasKey(members, key) {
      ReplaceKeepsValue(members, key, value);
    } else {
      InsertKeepsDistinct(members, key, value);
      InsertKeepsListed(members, key, value);
      InsertKeepsMembers(members, key, value);
    }
  }

  lemma {:induction false} PutAllIsValue(into: Members, written: Members)
    requires IsValue(Object(into)) && AreMembers(written)
    ensures IsValue(Object(PutAll(into, written)))
    decreases written
  {
    if written.Member? {
      PutKeepsValue(into, written.key, written.value);
      PutAllIsValue(Put(into, written.key, written.value), written.rest);
    }
  }

  lemma {:induction false} ParsedIsValue(text: Str)
    ensures ParseValue(text).Got? ==> IsValue(ParseValue(text).value)
    decreases |text|, 1
  {
    var s := SkipSpace(text);
    if s != [] && s[0] == OPEN_BRACKET {
      ParsedItemsAreValues(SkipSpace(s[1..]));
    } else if s != [] && s[0] == OPEN_BRACE {
      var inner := SkipSpace(s[1..]);
      ParsedMembersAreValues(inner);
      if ParseMembers(inner).Got? {
        PutAllIsValue(NoMembers, ParseMembers(inner).value);
      }
    }
  }

  lemma {:induction false} ParsedItemsAreValues(s: Str)
    ensures ParseItems(s).Got? ==> AreValues(ParseItems(s).value)
    decreases |s|, 2
  {
    if ParseItems(s).Got? {
      ParsedIsValue(s);
      var after := SkipSpace(ParseValue(s).rest);
      ParsedItemsAreValues(after[1..]);
    }
  }

  lemma {:induction false} ParsedMembersAreValues(s: Str)
    ensures ParseMembers(s).Got? ==> AreMembers(ParseMembers(s).value)
    decreases |s|, 2
  {
    if ParseMembers(s).Got? {
      var colon := ParseKey(s).rest;
      ParsedIsValue(colon);
      var after := SkipSpace(ParseValue(colon).rest);
      ParsedMembersAreValues(after[1..]);
    }
  }

  // ---- main results ----

  /** Parsing what was printed gives the value back. */
  lemma ParseUndoesPrint(v: Value)
    requires IsValue(v)
    ensures Parse(Print(v)) == Some(v)
  {
    ValueComesBack(v, []);
    assert Print(v) + [] == Print(v);
  }

  /** So different values have different texts. */
  lemma PrintIsInjective(v: Value, w: Value)
    requires IsValue(v) && IsValue(w) && Print(v) == Print(w)
    ensures v == w
  {
    ParseUndoesPrint(v);
    ParseUndoesPrint(w);
  }

  /**
   Whatever text was parsed, printing the result and parsing again gives the result again. A number is carried as the
   numeral that was written: of `-0` or `1e999` this speaks of the numeral, where JavaScript goes on with the binary64
   value and prints `0` and `null`.
   */
  lemma ReprintedTextParsesAlike(text: Str)
    requires Parse(text).Some?
    ensures Parse(Print(Parse(text).value)) == Parse(text)
  {
    ParsedIsValue(text);
    ParseUndoesPrint(Parse(text).value);
  }

  // ---- the text printed is well formed ----

  lemma {:induction false} EscapeIsWellFormed(text: Str)
    ensures WellFormed(Escape(text))
    decreases |text|
  {
    if text == [] {
    } else if PairFirst(text) {
      EscapeIsWellFormed(text[2..]);
      var s := Escape(text);
      assert PairFirst(s) && s[2..] == Escape(text[2..]);
    } else {
      EscapeIsWellFormed(text[1..]);
      EscapedUnitIsWellFormed(text[0]);
      WellFormedConcat(EscapeUnit(text[0]), Escape(text[1..]));
    }
  }

  lemma EscapedUnitIsWellFormed(c: Unit)
    ensures WellFormed(EscapeUnit(c))
  {
    if |EscapeUnit(c)| == 1 {
      assert EscapeUnit(c) == [c];
    } else {
      PlainIsWellFormed(EscapeUnit(c));
    }
  }

  /** Well-formed text between plain marks. */
  lemma Around(open: Str, s: Str, close: Str)
    requires WellFormed(s)
    requires forall i :: 0 <= i < |open| ==> open[i] < 0xD800
    requires forall i :: 0 <= i < |close| ==> close[i] < 0xD800
    ensures WellFormed(open + s + close)
  {
    PlainIsWellFormed(open);
    PlainIsWellFormed(close);
    WellFormedConcat(open, s);
    WellFormedConcat(open + s, close);
  }

  lemma QuoteIsWellFormed(text: Str)
    ensures WellFormed(Quote(text))
  {
    EscapeIsWellFormed(text);
    Around([QUOTE], Escape(text), [QUOTE]);
  }

  lemma {:induction false} PrintIsWellFormed(v: Value)
    requires IsValue(v)
    ensures WellFormed(Print(v))
    decreases v
  {
    match v
    case String(text) => QuoteIsWellFormed(text);
    case Array(items) =>
      PrintItemsIsWellFormed(items);
      Around([OPEN_BRACKET], PrintItems(items), [CLOSE_BRACKET]);
    case Object(members) =>
      PrintMembersIsWellFormed(members);
      Around([OPEN_BRACE], PrintMembers(members), [CLOSE_BRACE]);
    case Number(numeral) => PlainIsWellFormed(numeral);
    case Null => PlainIsWellFormed(Print(v));
    case Bool(b) => PlainIsWellFormed(Print(v));
  }

  lemma {:induction false} PrintItemsIsWellFormed(items: Items)
    requires AreValues(items)
    ensures WellFormed(PrintItems(items))
    decreases items
  {
    if items.Item? {
      PrintIsWellFormed(items.first);
      PrintItemsIsWellFormed(items.rest);
      Around([], Print(items.first), [COMMA]);
      assert [] + Print(items.first) + [COMMA] == Print(items.first) + [COMMA];
      WellFormedConcat(Print(items.first) + [COMMA], PrintItems(items.rest));
    }
  }

  lemma {:induction false} PrintMembersIsWellFormed(members: Members)
    requires AreMembers(members)
    ensures WellFormed(PrintMembers(members))
    decreases members
  {
    if members.Member? {
      QuoteIsWellFormed(members.key);
      PrintIsWellFormed(members.value);
      Around([], Quote(members.key), [COLON]);
      assert [] + Quote(members.key) + [COLON] == Quote(members.key) + [COLON];
      WellFormedConcat(Quote(members.key) + [COLON], Print(members.value));
      if members.rest.Member? {
        PrintMembersIsWellFormed(members.rest);
        var first := Quote(members.key) + [COLON] + Print(members.value);
        Around([], first, [COMMA]);
        assert [] + first + [COMMA] == first + [COMMA];
        WellFormedConcat(first + [COMMA], PrintMembers(members.rest));
      }
    }
  }
}
