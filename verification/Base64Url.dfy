/**
 Base64 with the URL alphabet and no padding (sections 5 and 3.2 of RFC 4648), built as the program builds it: `btoa`,
 three replacements, and back through the forgiving `atob`.
 */
module Base64Url {
  import opened Wrappers
  import opened Text
  import opened Utf8

  type Sextet = x: int | 0 <= x < 64

  const PLUS: Unit := 0x2B
  const SLASH: Unit := 0x2F
  const DASH: Unit := 0x2D
  const UNDERSCORE: Unit := 0x5F
  const EQUALS: Unit := 0x3D

  // ---- symbols ----

  function Symbol(n: Sextet): Unit {
    if n < 26 then 0x41 + n
    else if n < 52 then 0x61 + (n - 26)
    else if n < 62 then 0x30 + (n - 52)
    else if n == 62 then PLUS
    else SLASH
  }

  predicate IsSymbol(c: Unit) {
    0x41 <= c <= 0x5A || 0x61 <= c <= 0x7A || IsDigit(c) || c == PLUS || c == SLASH
  }

  function SymbolValue(c: Unit): (n: Sextet)
    requires IsSymbol(c)
    ensures Symbol(n) == c
  {
    if 0x41 <= c <= 0x5A then c - 0x41
    else if 0x61 <= c <= 0x7A then c - 0x61 + 26
    else if IsDigit(c) then c - 0x30 + 52
    else if c == PLUS then 62
    else 63
  }

  predicate IsUrlSymbol(c: Unit) {
    0x41 <= c <= 0x5A || 0x61 <= c <= 0x7A || IsDigit(c) || c == DASH || c == UNDERSCORE
  }

  function Symbols(digits: seq<Sextet>): Str {
    seq(|digits|, i requires 0 <= i < |digits| => Symbol(digits[i]))
  }

  // ---- bytes in groups of three, sextets in groups of four ----

  function Sextets(b: Bytes): seq<Sextet> {
    if b == [] then []
    else if |b| == 1 then [b[0] / 4, b[0] % 4 * 16]
    else if |b| == 2 then [b[0] / 4, b[0] % 4 * 16 + b[1] / 16, b[1] % 16 * 4]
    else [b[0] / 4, b[0] % 4 * 16 + b[1] / 16, b[1] % 16 * 4 + b[2] / 64, b[2] % 64] + Sextets(b[3..])
  }

  function FirstOctet(d0: Sextet, d1: Sextet): Byte {
    d0 as int * 4 + d1 as int / 16
  }

  function SecondOctet(d1: Sextet, d2: Sextet): Byte {
    d1 as int % 16 * 16 + d2 as int / 4
  }

  function ThirdOctet(d2: Sextet, d3: Sextet): Byte {
    d2 as int % 4 * 64 + d3 as int
  }

  /** Bits left over at the end are dropped. */
  function Octets(d: seq<Sextet>): Bytes {
    if |d| < 2 then []
    else if |d| == 2 then [FirstOctet(d[0], d[1])]
    else if |d| == 3 then [FirstOctet(d[0], d[1]), SecondOctet(d[1], d[2])]
    else [FirstOctet(d[0], d[1]), SecondOctet(d[1], d[2]), ThirdOctet(d[2], d[3])] + Octets(d[4..])
  }

  function Padding(n: nat): Str {
    if n % 3 == 1 then [EQUALS, EQUALS] else if n % 3 == 2 then [EQUALS] else []
  }

  function Btoa(b: Bytes): Str {
    Symbols(Sextets(b)) + Padding(|b|)
  }

  predicate IsAsciiSpace(c: Unit) {
    c == 0x09 || c == 0x0A || c == 0x0C || c == 0x0D || c == 0x20
  }

  function WithoutAsciiSpace(s: Str): Str {
    if s == [] then []
    else if IsAsciiSpace(s[0]) then WithoutAsciiSpace(s[1..])
    else [s[0]] + WithoutAsciiSpace(s[1..])
  }

  /** One or two equals signs at the end of whole groups. */
  function WithoutPadding(s: Str): Str {
    if |s| % 4 != 0 || s == [] || s[|s| - 1] != EQUALS then s
    else if s[|s| - 2] == EQUALS then s[..|s| - 2]
    else s[..|s| - 1]
  }

  function Values(s: Str): (d: seq<Sextet>)
    requires forall i :: 0 <= i < |s| ==> IsSymbol(s[i])
  {
    seq(|s|, i requires 0 <= i < |s| => SymbolValue(s[i]))
  }

  function Atob(s: Str): Option<Bytes> {
    var t := WithoutPadding(WithoutAsciiSpace(s));
    if |t| % 4 == 1 then None
    else if forall i :: 0 <= i < |t| ==> IsSymbol(t[i]) then Some(Octets(Values(t)))
    else None
  }

  // ---- the program's replacements ----

  function ReplaceAll(s: Str, from: Unit, to: Unit): (r: Str) {
    seq(|s|, i requires 0 <= i < |s| => if s[i] == from then to else s[i])
  }

  /** `.replace(/=+$/, "")` */
  function StripEquals(s: Str): Str {
    if s != [] && s[|s| - 1] == EQUALS then StripEquals(s[..|s| - 1]) else s
  }

  function UrlText(b: Bytes): Str {
    StripEquals(ReplaceAll(ReplaceAll(Btoa(b), PLUS, DASH), SLASH, UNDERSCORE))
  }

  function FromBase64Url(blob: Str): Option<Str> {
    if blob == [] || exists i :: 0 <= i < |blob| && !IsUrlSymbol(blob[i]) then None
    else
      var bytes := Atob(ReplaceAll(ReplaceAll(blob, DASH, PLUS), UNDERSCORE, SLASH));
      if bytes.None? then None else Decode(bytes.value)
  }

  method ToBase64Url(text: Str) returns (blob: Str)
    ensures blob == UrlText(Encode(text))
  {
    var bytes, binary, i := Encode(text), [], 0;
    while i < |bytes|
      invariant 0 <= i <= |bytes|
      invariant binary == bytes[..i]
    {
      binary := binary + [bytes[i]];
      i := i + 1;
    }
    assert bytes[..i] == bytes;
    blob := StripEquals(ReplaceAll(ReplaceAll(Btoa(binary), PLUS, DASH), SLASH, UNDERSCORE));
  }

  // ---- groups ----

  lemma GroupComesBack(a: Byte, b: Byte, c: Byte)
    ensures FirstOctet(a / 4, a % 4 * 16 + b / 16) == a
    ensures SecondOctet(a % 4 * 16 + b / 16, b % 16 * 4 + c / 64) == b
    ensures ThirdOctet(b % 16 * 4 + c / 64, c % 64) == c
  {
    LastDigit(a as int % 4, 16, b as int / 16);
    LastDigit(b as int % 16, 4, c as int / 64);
  }

  lemma LastDigit(q: int, n: int, r: int)
    requires (n == 16 || n == 4) && 0 <= r < n
    ensures (q * n + r) / n == q && (q * n + r) % n == r
  {
  }

  /** Whatever the length modulo three, the bytes come back. */
  lemma {:induction false} OctetsUndoSextets(b: Bytes)
    ensures Octets(Sextets(b)) == b
    decreases |b|
  {
    if |b| == 1 {
      GroupComesBack(b[0], 0, 0);
    } else if |b| == 2 {
      GroupComesBack(b[0], b[1], 0);
    } else if |b| >= 3 {
      OctetsUndoSextets(b[3..]);
      GroupComesBack(b[0], b[1], b[2]);
      assert Sextets(b)[4..] == Sextets(b[3..]);
      assert b == [b[0], b[1], b[2]] + b[3..];
    }
  }

  lemma {:induction false} SextetsLength(b: Bytes)
    ensures |Sextets(b)| % 4 != 1 && (Sextets(b) == [] <==> b == [])
    decreases |b|
  {
    if |b| >= 3 {
      SextetsLength(b[3..]);
    }
  }

  // ---- symbols there and back ----

  function UrlSymbol(n: Sextet): (c: Unit)
    ensures IsUrlSymbol(c)
  {
    if n == 62 then DASH else if n == 63 then UNDERSCORE else Symbol(n)
  }

  function UrlSymbols(d: seq<Sextet>): Str {
    seq(|d|, i requires 0 <= i < |d| => UrlSymbol(d[i]))
  }

  lemma {:induction false} StripEqualsFromPadded(s: Str, padding: Str)
    requires s != [] ==> s[|s| - 1] != EQUALS
    requires forall i :: 0 <= i < |padding| ==> padding[i] == EQUALS
    ensures StripEquals(s + padding) == s
    decreases |padding|
  {
    if padding == [] {
      assert s + padding == s;
    } else {
      var shorter := padding[..|padding| - 1];
      StripEqualsFromPadded(s, shorter);
      assert (s + padding)[..|s + padding| - 1] == s + shorter;
    }
  }

  /** The text is the URL symbols of the sextets and nothing else. */
  lemma UrlTextIsSymbols(b: Bytes)
    ensures UrlText(b) == UrlSymbols(Sextets(b))
  {
    var d := Sextets(b);
    assert ReplaceAll(ReplaceAll(Btoa(b), PLUS, DASH), SLASH, UNDERSCORE) == UrlSymbols(d) + Padding(|b|);
    StripEqualsFromPadded(UrlSymbols(d), Padding(|b|));
  }

  lemma {:induction false} NoAsciiSpace(s: Str)
    requires forall i :: 0 <= i < |s| ==> !IsAsciiSpace(s[i])
    ensures WithoutAsciiSpace(s) == s
  {
    if s != [] {
      NoAsciiSpace(s[1..]);
    }
  }

  lemma SymbolComesBack(n: Sextet)
    ensures IsSymbol(Symbol(n)) && SymbolValue(Symbol(n)) == n
    ensures !IsAsciiSpace(Symbol(n)) && Symbol(n) != EQUALS
  {
  }

  lemma ValuesOfSymbols(d: seq<Sextet>)
    ensures var s := Symbols(d);
            && (forall i :: 0 <= i < |s| ==> IsSymbol(s[i]) && !IsAsciiSpace(s[i]) && s[i] != EQUALS)
            && Values(s) == d
  {
    forall i | 0 <= i < |d|
      ensures IsSymbol(Symbol(d[i])) && SymbolValue(Symbol(d[i])) == d[i]
      ensures !IsAsciiSpace(Symbol(d[i])) && Symbol(d[i]) != EQUALS
    {
      SymbolComesBack(d[i]);
    }
  }

  lemma AtobOfSymbols(b: Bytes)
    ensures Atob(Symbols(Sextets(b))) == Some(b)
  {
    var d := Sextets(b);
    ValuesOfSymbols(d);
    NoAsciiSpace(Symbols(d));
    SextetsLength(b);
    OctetsUndoSextets(b);
  }

  /** What `toBase64Url` wrote reads back as the text, which UTF-8 must be able to carry. */
  lemma FromUndoesTo(text: Str)
    requires text != []
    ensures FromBase64Url(UrlText(Encode(text))) == Decode(Encode(text))
  {
    var b := Encode(text);
    var d := Sextets(b);
    UrlTextIsSymbols(b);
    SextetsLength(b);
    var blob := UrlSymbols(d);
    assert forall i :: 0 <= i < |blob| ==> blob[i] == UrlSymbol(d[i]) && IsUrlSymbol(blob[i]);
    assert ReplaceAll(ReplaceAll(blob, DASH, PLUS), UNDERSCORE, SLASH) == Symbols(d);
    AtobOfSymbols(b);
  }

  lemma TextComesBack(text: Str)
    requires text != [] && WellFormed(text) && !Marked(text)
    ensures FromBase64Url(UrlText(Encode(text))) == Some(text)
  {
    FromUndoesTo(text);
    TextComesBackIff(text);
  }
}
