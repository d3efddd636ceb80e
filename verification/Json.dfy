/**
 JSON values as JavaScript holds them, `JSON.stringify` and `JSON.parse` (RFC 8259). A number is carried as the numeral
 JavaScript prints for it. An object's members stand in the order JavaScript lists them: keys that are array indices
 first, ascending, then the others in the order they were put in.
 */
module Json {
  import opened Wrappers
  import opened Text

  datatype Value =
    | Null
    | Bool(b: bool)
    | Number(numeral: Str)
    | String(text: Str)
    | Array(items: Items)
    | Object(members: Members)

  datatype Items = NoItems | Item(first: Value, rest: Items)

  datatype Members = NoMembers | Member(key: Str, value: Value, rest: Members)

  // ---- keys ----

  predicate Before(a: Str, b: Str) {
    if b == [] then false
    else if a == [] then true
    else a[0] < b[0] || (a[0] == b[0] && Before(a[1..], b[1..]))
  }

  const LAST_INDEX: Str := Ascii("4294967294")

  /** A key that is an array index: a numeral without leading zeros, below 2^32 - 1. */
  predicate IsIndex(key: Str) {
    && key != []
    && (forall i :: 0 <= i < |key| ==> IsDigit(key[i]))
    && (key[0] == 0x30 ==> |key| == 1)
    && (|key| < 10 || (|key| == 10 && !Before(LAST_INDEX, key)))
  }

  predicate BelowIndex(a: Str, b: Str) {
    |a| < |b| || (|a| == |b| && Before(a, b))
  }

  predicate HasKey(members: Members, key: Str) {
    members.Member? && (members.key == key || HasKey(members.rest, key))
  }

  function Get(members: Members, key: Str): Option<Value> {
    if members.NoMembers? then None
    else if members.key == key then Some(members.value)
    else Get(members.rest, key)
  }

  /** Giving an object a property of its own: an old one keeps its place, an index takes its place among the indices. */
  function Put(members: Members, key: Str, value: Value): Members {
    if HasKey(members, key) then Replace(members, key, value) else Insert(members, key, value)
  }

  function Replace(members: Members, key: Str, value: Value): Members {
    if members.NoMembers? then NoMembers
    else if members.key == key then Member(key, value, members.rest)
    else Member(members.key, members.value, Replace(members.rest, key, value))
  }

  predicate GoesBefore(key: Str, other: Str) {
    IsIndex(key) && (!IsIndex(other) || BelowIndex(key, other))
  }

  function Insert(members: Members, key: Str, value: Value): Members {
    if members.NoMembers? then Member(key, value, NoMembers)
    else if GoesBefore(key, members.key) then Member(key, value, members)
    else Member(members.key, members.value, Insert(members.rest, key, value))
  }

  predicate Distinct(members: Members) {
    members.Member? ==> !HasKey(members.rest, members.key) && Distinct(members.rest)
  }

  /** No later key would have been put before an earlier one. */
  predicate Listed(members: Members) {
    members.Member? ==> NoneGoesBefore(members.rest, members.key) && Listed(members.rest)
  }

  predicate NoneGoesBefore(members: Members, key: Str) {
    members.Member? ==> !GoesBefore(members.key, key) && NoneGoesBefore(members.rest, key)
  }

  // ---- numerals ----

  predicate IsNumeralUnit(c: Unit) {
    IsDigit(c) || c == 0x2D || c == 0x2B || c == 0x2E || c == 0x65 || c == 0x45
  }

  function Digits(s: Str): (n: nat)
    ensures n <= |s|
  {
    if s != [] && IsDigit(s[0]) then 1 + Digits(s[1..]) else 0
  }

  /** What may follow the integer part: a fraction, an exponent, both or neither. */
  predicate IsTail(s: Str) {
    if s != [] && s[0] == 0x2E then
      var n := Digits(s[1..]);
      n > 0 && IsExponent(s[1 + n..])
    else IsExponent(s)
  }

  predicate IsExponent(s: Str) {
    || s == []
    || ((s[0] == 0x65 || s[0] == 0x45)
        && var sign := if |s| > 1 && (s[1] == 0x2B || s[1] == 0x2D) then 1 else 0;
           |s| > 1 + sign && Digits(s[1 + sign..]) == |s| - 1 - sign)
  }

  /** The number grammar of section 6 of RFC 8259. */
  predicate IsNumeral(s: Str) {
    var body := if s != [] && s[0] == 0x2D then s[1..] else s;
    var n := Digits(body);
    && n > 0
    && (body[0] == 0x30 ==> n == 1)
    && IsTail(body[n..])
    && forall i :: 0 <= i < |s| ==> IsNumeralUnit(s[i])
  }

  /** A value JavaScript can hold, numbers being finite. */
  predicate IsValue(v: Value) {
    match v
    case Number(numeral) => IsNumeral(numeral)
    case Array(items) => AreValues(items)
    case Object(members) => Distinct(members) && Listed(members) && AreMembers(members)
    case _ => true
  }

  predicate AreValues(items: Items) {
    items.Item? ==> IsValue(items.first) && AreValues(items.rest)
  }

  predicate AreMembers(members: Members) {
    members.Member? ==> IsValue(members.value) && AreMembers(members.rest)
  }

  // ---- printing ----

  function HexDigit(n: int): Unit
    requires 0 <= n < 16
  {
    if n < 10 then 0x30 + n else 0x61 + n - 10
  }

  function UnicodeEscape(c: Unit): Str {
    [BACKSLASH, 0x75, HexDigit(c / 16 / 16 / 16), HexDigit(c / 16 / 16 % 16), HexDigit(c / 16 % 16), HexDigit(c % 16)]
  }

  function EscapeUnit(c: Unit): Str {
    if c == QUOTE then [BACKSLASH, QUOTE]
    else if c == BACKSLASH then [BACKSLASH, BACKSLASH]
    else if c == 0x08 then [BACKSLASH, 0x62]
    else if c == 0x0C then [BACKSLASH, 0x66]
    else if c == 0x0A then [BACKSLASH, 0x6E]
    else if c == 0x0D then [BACKSLASH, 0x72]
    else if c == 0x09 then [BACKSLASH, 0x74]
    else if c < 0x20 || IsHigh(c) || IsLow(c) then UnicodeEscape(c)
    else [c]
  }

  /** A surrogate pair stays as it is; a surrogate alone is escaped, so the text printed is always well formed. */
  function Escape(text: Str): Str {
    if text == [] then []
    else if PairFirst(text) then [text[0], text[1]] + Escape(text[2..])
    else EscapeUnit(text[0]) + Escape(text[1..])
  }

  function Quote(text: Str): Str {
    [QUOTE] + Escape(text) + [QUOTE]
  }

  function Print(v: Value): Str {
    match v
    case Null => Ascii("null")
    case Bool(b) => if b then Ascii("true") else Ascii("false")
    case Number(numeral) => numeral
    case String(text) => Quote(text)
    case Array(items) => [OPEN_BRACKET] + PrintItems(items) + [CLOSE_BRACKET]
    case Object(members) => [OPEN_BRACE] + PrintMembers(members) + [CLOSE_BRACE]
  }

  function PrintItems(items: Items): Str {
    match items
    case NoItems => []
    case Item(v, NoItems) => Print(v)
    case Item(v, rest) => Print(v) + [COMMA] + PrintItems(rest)
  }

  function PrintMembers(members: Members): Str {
    match members
    case NoMembers => []
    case Member(k, v, NoMembers) => Quote(k) + [COLON] + Print(v)
    case Member(k, v, rest) => Quote(k) + [COLON] + Print(v) + [COMMA] + PrintMembers(rest)
  }

  // ---- parsing ----

  datatype Parsed<+T> = Bad | Got(value: T, rest: Str)

  function SkipSpace(s: Str): (r: Str)
    ensures |r| <= |s|
  {
    if s != [] && (s[0] == 0x20 || s[0] == 0x09 || s[0] == 0x0A || s[0] == 0x0D) then SkipSpace(s[1..]) else s
  }

  function HexValue(c: Unit): (r: Option<int>)
    ensures r.Some? ==> 0 <= r.value < 16
  {
    if IsDigit(c) then Some(c - 0x30)
    else if 0x61 <= c <= 0x66 then Some(c - 0x61 + 10)
    else if 0x41 <= c <= 0x46 then Some(c - 0x41 + 10)
    else None
  }

  lemma HexValueOfDigit(n: int)
    requires 0 <= n < 16
    ensures HexValue(HexDigit(n)) == Some(n)
  {
  }

  function FromHex(a: int, b: int, c: int, d: int): Unit
    requires 0 <= a < 16 && 0 <= b < 16 && 0 <= c < 16 && 0 <= d < 16
  {
    a * 0x1000 + b * 0x100 + c * 16 + d
  }

  /** What stands after a backslash: the unit it means, and how many units it takes. */
  function Unescape(s: Str): (r: Option<(Unit, nat)>)
    ensures r.Some? ==> 1 <= r.value.1 <= |s|
  {
    if s == [] then None
    else if s[0] == QUOTE || s[0] == BACKSLASH || s[0] == 0x2F then Some((s[0], 1))
    else if s[0] == 0x62 then Some((0x08, 1))
    else if s[0] == 0x66 then Some((0x0C, 1))
    else if s[0] == 0x6E then Some((0x0A, 1))
    else if s[0] == 0x72 then Some((0x0D, 1))
    else if s[0] == 0x74 then Some((0x09, 1))
    else if s[0] != 0x75 || |s| < 5 then None
    else
      var a, b, c, d := HexValue(s[1]), HexValue(s[2]), HexValue(s[3]), HexValue(s[4]);
      if a.Some? && b.Some? && c.Some? && d.Some? then
        Some((FromHex(a.value, b.value, c.value, d.value), 5))
      else None
  }

  /** The rest of a string, up to its closing quote. */
  function ParseString(s: Str): (r: Parsed<Str>)
    ensures r.Got? ==> |r.rest| < |s|
    decreases |s|
  {
    if s == [] then Bad
    else if s[0] == QUOTE then Got([], s[1..])
    else if s[0] < 0x20 then Bad
    else if s[0] == BACKSLASH then
      var u := Unescape(s[1..]);
      if u == None then Bad
      else
        var more := ParseString(s[1 + u.value.1..]);
        if more.Bad? then Bad else Got([u.value.0] + more.value, more.rest)
    else
      var more := ParseString(s[1..]);
      if more.Bad? then Bad else Got([s[0]] + more.value, more.rest)
  }

  function NumeralRun(s: Str): (n: nat)
    ensures n <= |s|
  {
    if s != [] && IsNumeralUnit(s[0]) then 1 + NumeralRun(s[1..]) else 0
  }

  function ParseWord(s: Str, word: Str, v: Value): (r: Parsed<Value>)
    requires word != []
    ensures r.Got? ==> |r.rest| < |s|
  {
    if word <= s then Got(v, s[|word|..]) else Bad
  }

  function ParseNumber(s: Str): (r: Parsed<Value>)
    ensures r.Got? ==> |r.rest| < |s|
  {
    var n := NumeralRun(s);
    if IsNumeral(s[..n]) then Got(Number(s[..n]), s[n..]) else Bad
  }

  function ParseText(s: Str): (r: Parsed<Value>)
    ensures r.Got? ==> |r.rest| < |s|
  {
    var t := ParseString(s);
    if t.Bad? then Bad else Got(String(t.value), t.rest)
  }

  function ParseValue(text: Str): (r: Parsed<Value>)
    ensures r.Got? ==> |r.rest| < |text|
    decreases |text|, 1
  {
    var s := SkipSpace(text);
    if s == [] then Bad
    else if s[0] == QUOTE then ParseText(s[1..])
    else if s[0] == OPEN_BRACKET then ParseArray(s[1..])
    else if s[0] == OPEN_BRACE then ParseObject(s[1..])
    else if s[0] == 0x6E then ParseWord(s, Ascii("null"), Null)
    else if s[0] == 0x74 then ParseWord(s, Ascii("true"), Bool(true))
    else if s[0] == 0x66 then ParseWord(s, Ascii("false"), Bool(false))
    else ParseNumber(s)
  }

  function ParseArray(s: Str): (r: Parsed<Value>)
    ensures r.Got? ==> |r.rest| < |s|
    decreases |s|, 3
  {
    var inner := SkipSpace(s);
    if inner != [] && inner[0] == CLOSE_BRACKET then Got(Array(NoItems), inner[1..])
    else
      var items := ParseItems(inner);
      if items.Bad? then Bad else Got(Array(items.value), items.rest)
  }

  function ParseObject(s: Str): (r: Parsed<Value>)
    ensures r.Got? ==> |r.rest| < |s|
    decreases |s|, 3
  {
    var inner := SkipSpace(s);
    if inner != [] && inner[0] == CLOSE_BRACE then Got(Object(NoMembers), inner[1..])
    else
      var members := ParseMembers(inner);
      if members.Bad? then Bad else Got(Object(PutAll(NoMembers, members.value)), members.rest)
  }

  /** Items up to the closing bracket, at least one. */
  function ParseItems(s: Str): (r: Parsed<Items>)
    ensures r.Got? ==> |r.rest| < |s|
    decreases |s|, 2
  {
    var v := ParseValue(s);
    if v.Bad? then Bad
    else
      var after := SkipSpace(v.rest);
      if after == [] then Bad
      else if after[0] == CLOSE_BRACKET then Got(Item(v.value, NoItems), after[1..])
      else if after[0] != COMMA then Bad
      else
        var more := ParseItems(after[1..]);
        if more.Bad? then Bad else Got(Item(v.value, more.value), more.rest)
  }

  /** A member's key and the colon after it. */
  function ParseKey(text: Str): (r: Parsed<Str>)
    ensures r.Got? ==> |r.rest| < |text|
  {
    var s := SkipSpace(text);
    if s == [] || s[0] != QUOTE then Bad
    else
      var key := ParseString(s[1..]);
      if key.Bad? then Bad
      else
        var colon := SkipSpace(key.rest);
        if colon == [] || colon[0] != COLON then Bad else Got(key.value, colon[1..])
  }

  /** Members up to the closing brace, at least one, as they are written. */
  function ParseMembers(s: Str): (r: Parsed<Members>)
    ensures r.Got? ==> |r.rest| < |s|
    decreases |s|, 2
  {
    var key := ParseKey(s);
    if key.Bad? then Bad
    else
      var v := ParseValue(key.rest);
      if v.Bad? then Bad
      else
        var after := SkipSpace(v.rest);
        if after == [] then Bad
        else if after[0] == CLOSE_BRACE then Got(Member(key.value, v.value, NoMembers), after[1..])
        else if after[0] != COMMA then Bad
        else
          var more := ParseMembers(after[1..]);
          if more.Bad? then Bad else Got(Member(key.value, v.value, more.value), more.rest)
  }

  /** Members put into an object one after another; a repeated key's last value wins. */
  function PutAll(into: Members, written: Members): Members
    decreases written
  {
    if written.NoMembers? then into else PutAll(Put(into, written.key, written.value), written.rest)
  }

  function Parse(text: Str): Option<Value> {
    var v := ParseValue(text);
    if v.Got? && SkipSpace(v.rest) == [] then Some(v.value) else None
  }
}
