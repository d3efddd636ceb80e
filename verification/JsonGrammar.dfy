/**
 The texts `JSON.parse` reads, by the grammar of RFC 8259: white space anywhere between tokens, strings spelled with or
 without escapes, numbers in every form. A text is read exactly when it is such a text, and as what it spells.
 */
module JsonGrammar {
  import opened Wrappers
  import opened Text
  import opened Json
  import opened JsonRoundTrip

  // ---- white space (section 2) ----

  predicate White(s: Str) {
    forall i :: 0 <= i < |s| ==> s[i] == 0x20 || s[i] == 0x09 || s[i] == 0x0A || s[i] == 0x0D
  }

  lemma {:induction false} WhiteIsSkipped(white: Str, s: Str)
    requires White(white)
    ensures SkipSpace(white + s) == SkipSpace(s)
    decreases |white|
  {
    if white == [] {
      assert white + s == s;
    } else {
      WhiteIsSkipped(white[1..], s);
      assert (white + s)[1..] == white[1..] + s;
    }
  }

  lemma {:induction false} SkippedIsWhite(s: Str) returns (white: Str)
    ensures White(white) && s == white + SkipSpace(s)
    decreases |s|
  {
    if SkipSpace(s) == s {
      white := [];
    } else {
      var more := SkippedIsWhite(s[1..]);
      white := [s[0]] + more;
      assert s == [s[0]] + s[1..];
    }
  }

  // ---- strings (section 7) ----

  /** One unit of a string as it is written. */
  datatype Piece = Plain(c: Unit) | Short(letter: Unit) | Hex(digits: Str)

  /** What the two-unit escapes mean. */
  const MEANT: map<Unit, Unit> :=
    map[0x22 := 0x22, 0x5C := 0x5C, 0x2F := 0x2F, 0x62 := 0x08, 0x66 := 0x0C, 0x6E := 0x0A, 0x72 := 0x0D, 0x74 := 0x09]

  function Digit(c: Unit): (n: nat) {
    if IsDigit(c) then c - 0x30
    else if 0x61 <= c <= 0x66 then c - 0x61 + 10
    else if 0x41 <= c <= 0x46 then c - 0x41 + 10
    else 16
  }

  predicate IsPiece(p: Piece) {
    match p
    case Plain(c) => c >= 0x20 && c != QUOTE && c != BACKSLASH
    case Short(letter) => letter in MEANT
    case Hex(digits) => |digits| == 4 && forall i :: 0 <= i < 4 ==> Digit(digits[i]) < 16
  }

  function PieceText(p: Piece): Str {
    match p
    case Plain(c) => [c]
    case Short(letter) => [BACKSLASH, letter]
    case Hex(digits) => [BACKSLASH, 0x75] + digits
  }

  function PieceUnit(p: Piece): Unit
    requires IsPiece(p)
  {
    match p
    case Plain(c) => c
    case Short(letter) => MEANT[letter]
    case Hex(d) => ((Digit(d[0]) * 16 + Digit(d[1])) * 16 + Digit(d[2])) * 16 + Digit(d[3])
  }

  predicate ArePieces(ps: seq<Piece>) {
    forall i :: 0 <= i < |ps| ==> IsPiece(ps[i])
  }

  function PiecesText(ps: seq<Piece>): Str {
    if ps == [] then [] else PieceText(ps[0]) + PiecesText(ps[1..])
  }

  function Spelled(ps: seq<Piece>): (text: Str)
    requires ArePieces(ps)
    ensures |text| == |ps|
  {
    seq(|ps|, i requires 0 <= i < |ps| => PieceUnit(ps[i]))
  }

  lemma HexDigits(c: Unit)
    ensures HexValue(c) == if Digit(c) < 16 then Some(Digit(c)) else None
  {
  }

  lemma HexIsRead(digits: Str, tail: Str)
    requires IsPiece(Hex(digits))
    ensures Unescape([0x75] + digits + tail) == Some((PieceUnit(Hex(digits)), 5))
  {
    var s := [0x75] + digits + tail;
    assert s[1] == digits[0] && s[2] == digits[1] && s[3] == digits[2] && s[4] == digits[3];
    HexDigits(digits[0]);
    HexDigits(digits[1]);
    HexDigits(digits[2]);
    HexDigits(digits[3]);
  }

  lemma ShortIsRead(letter: Unit, tail: Str)
    ensures letter in MEANT ==> Unescape([letter] + tail) == Some((MEANT[letter], 1))
    ensures letter !in MEANT && letter != 0x75 ==> Unescape([letter] + tail) == None
  {
  }

  lemma PieceIsRead(p: Piece, tail: Str)
    requires IsPiece(p) && ParseString(tail).Got?
    ensures ParseString(PieceText(p) + tail) == Got([PieceUnit(p)] + ParseString(tail).value, ParseString(tail).rest)
  {
    match p
    case Plain(c) =>
      PlainComesBack(c, tail);
    case Short(letter) =>
      ShortIsRead(letter, tail);
      EscapedComesBack(MEANT[letter], [letter], tail);
      assert [BACKSLASH] + [letter] == PieceText(p);
    case Hex(digits) =>
      HexIsRead(digits, tail);
      EscapedComesBack(PieceUnit(p), [0x75] + digits, tail);
      assert [BACKSLASH] + ([0x75] + digits) == PieceText(p);
  }

  lemma SpelledFirst(ps: seq<Piece>)
    requires ps != [] && ArePieces(ps)
    ensures ArePieces(ps[1..]) && Spelled(ps) == [PieceUnit(ps[0])] + Spelled(ps[1..])
  {
  }

  lemma FirstIsRead(p: Piece, more: Str, text: Str, rest: Str)
    requires IsPiece(p) && ParseString(more + [QUOTE] + rest) == Got(text, rest)
    ensures ParseString(PieceText(p) + more + [QUOTE] + rest) == Got([PieceUnit(p)] + text, rest)
  {
    PieceIsRead(p, more + [QUOTE] + rest);
    Regroup(PieceText(p), more, [QUOTE], rest);
  }

  lemma {:induction false} PiecesAreRead(ps: seq<Piece>, rest: Str)
    requires ArePieces(ps)
    ensures ParseString(PiecesText(ps) + [QUOTE] + rest) == Got(Spelled(ps), rest)
    decreases |ps|
  {
    if ps == [] {
      StringEnds(rest);
    } else {
      SpelledFirst(ps);
      PiecesAreRead(ps[1..], rest);
      FirstIsRead(ps[0], PiecesText(ps[1..]), Spelled(ps[1..]), rest);
    }
  }

  /** The piece a string goes on with, where it does. */
  lemma FirstPiece(s: Str) returns (p: Piece, tail: Str)
    requires ParseString(s).Got? && s[0] != QUOTE
    ensures IsPiece(p) && s == PieceText(p) + tail && |tail| < |s|
    ensures ParseString(tail).Got?
    ensures ParseString(s) == Got([PieceUnit(p)] + ParseString(tail).value, ParseString(tail).rest)
  {
    if s[0] != BACKSLASH {
      p, tail := Plain(s[0]), s[1..];
    } else if s[1] != 0x75 {
      p, tail := Short(s[1]), s[2..];
      assert s[1..] == [s[1]] + tail;
      ShortIsRead(s[1], tail);
    } else {
      p, tail := Hex(s[2..6]), s[6..];
      HexDigits(s[2]);
      HexDigits(s[3]);
      HexDigits(s[4]);
      HexDigits(s[5]);
      assert s[1..][1] == s[2] && s[1..][2] == s[3] && s[1..][3] == s[4] && s[1..][4] == s[5];
      assert s[1..] == [0x75] + s[2..6] + tail;
      HexIsRead(s[2..6], tail);
    }
  }

  lemma {:induction false} ReadIsPieces(s: Str) returns (ps: seq<Piece>)
    requires ParseString(s).Got?
    ensures ArePieces(ps) && s == PiecesText(ps) + [QUOTE] + ParseString(s).rest && ParseString(s).value == Spelled(ps)
    decreases |s|
  {
    if s[0] == QUOTE {
      ps := [];
      assert s == [] + [QUOTE] + s[1..];
    } else {
      var p, tail := FirstPiece(s);
      var more := ReadIsPieces(tail);
      ps := [p] + more;
      assert ps[1..] == more;
      Regroup(PieceText(p), PiecesText(more), [QUOTE], ParseString(tail).rest);
      SpelledFirst(ps);
    }
  }

  // ---- numbers (section 6) ----

  datatype Exponent = NoExponent | Exponent(mark: Unit, sign: Str, digits: Str)

  datatype Parts = Parts(minus: bool, whole: Str, fraction: Str, exponent: Exponent)

  predicate AllDigits(s: Str) {
    forall i :: 0 <= i < |s| ==> IsDigit(s[i])
  }

  predicate AreParts(p: Parts) {
    && p.whole != [] && AllDigits(p.whole) && (p.whole[0] == 0x30 ==> |p.whole| == 1)
    && AllDigits(p.fraction)
    && (p.exponent.Exponent? ==>
          && (p.exponent.mark == 0x65 || p.exponent.mark == 0x45)
          && (p.exponent.sign == [] || p.exponent.sign == [0x2B] || p.exponent.sign == [0x2D])
          && p.exponent.digits != [] && AllDigits(p.exponent.digits))
  }

  function ExponentText(e: Exponent): Str {
    if e.NoExponent? then [] else [e.mark] + e.sign + e.digits
  }

  function TailText(fraction: Str, e: Exponent): Str {
    if fraction == [] then ExponentText(e) else [0x2E] + fraction + ExponentText(e)
  }

  function PartsText(p: Parts): Str {
    (if p.minus then [0x2D] else []) + (p.whole + TailText(p.fraction, p.exponent))
  }

  lemma {:induction false} DigitsStop(digits: Str, rest: Str)
    requires AllDigits(digits) && (rest == [] || !IsDigit(rest[0]))
    ensures Digits(digits + rest) == |digits|
    decreases |digits|
  {
    if digits == [] {
      assert digits + rest == rest;
    } else {
      DigitsStop(digits[1..], rest);
      assert (digits + rest)[1..] == digits[1..] + rest;
    }
  }

  lemma {:induction false} DigitsAreDigits(s: Str)
    ensures AllDigits(s[..Digits(s)]) && (Digits(s) < |s| ==> !IsDigit(s[Digits(s)]))
    decreases |s|
  {
    if s != [] && IsDigit(s[0]) {
      DigitsAreDigits(s[1..]);
      assert s[..Digits(s)] == [s[0]] + s[1..][..Digits(s[1..])];
    }
  }

  lemma ExponentIs(e: Exponent)
    requires AreParts(Parts(false, [0x30], [], e))
    ensures IsExponent(ExponentText(e))
    ensures forall i :: 0 <= i < |ExponentText(e)| ==> IsNumeralUnit(ExponentText(e)[i])
  {
    if e.Exponent? {
      var s := ExponentText(e);
      DigitsStop(e.digits, []);
      assert e.digits + [] == e.digits;
      assert s[1 + |e.sign|..] == e.digits;
      assert e.sign == [] ==> s[1] == e.digits[0];
      assert e.sign != [] ==> s[1] == e.sign[0];
    }
  }

  lemma FractionIs(fraction: Str, rest: Str)
    requires fraction != [] && AllDigits(fraction) && IsExponent(rest)
    ensures Json.IsTail([0x2E] + fraction + rest)
  {
    var t := [0x2E] + fraction + rest;
    DigitsStop(fraction, rest);
    assert t[1..] == fraction + rest && t[1 + |fraction|..] == rest;
  }

  lemma TailIs(fraction: Str, e: Exponent)
    requires AreParts(Parts(false, [0x30], fraction, e))
    ensures var t := TailText(fraction, e);
            && Json.IsTail(t) && (t == [] || !IsDigit(t[0]))
            && forall i :: 0 <= i < |t| ==> IsNumeralUnit(t[i])
  {
    ExponentIs(e);
    if fraction != [] {
      FractionIs(fraction, ExponentText(e));
    }
  }

  /** A numeral without its minus. */
  predicate IsBody(body: Str) {
    var n := Digits(body);
    && n > 0 && (body[0] == 0x30 ==> n == 1) && Json.IsTail(body[n..])
    && forall i :: 0 <= i < |body| ==> IsNumeralUnit(body[i])
  }

  lemma UnsignedIsNumeral(body: Str)
    requires IsBody(body)
    ensures IsNumeral(body)
  {
    assert IsDigit(body[0]);
  }

  lemma SignedIsNumeral(s: Str)
    requires s != [] && s[0] == 0x2D && IsBody(s[1..])
    ensures IsNumeral(s)
  {
    var body := s[1..];
    forall i | 0 <= i < |s| ensures IsNumeralUnit(s[i]) {
      assert i > 0 ==> s[i] == body[i - 1];
    }
  }

  lemma PartsAreNumeral(p: Parts)
    requires AreParts(p)
    ensures IsNumeral(PartsText(p))
  {
    var tail := TailText(p.fraction, p.exponent);
    TailIs(p.fraction, p.exponent);
    DigitsStop(p.whole, tail);
    var body := p.whole + tail;
    assert body[|p.whole|..] == tail && body[0] == p.whole[0];
    if p.minus {
      assert ([0x2D] + body)[1..] == body;
      SignedIsNumeral([0x2D] + body);
    } else {
      UnsignedIsNumeral(body);
      assert [] + body == body;
    }
  }

  lemma ExponentIsWritten(s: Str) returns (e: Exponent)
    requires IsExponent(s)
    ensures AreParts(Parts(false, [0x30], [], e)) && s == ExponentText(e)
  {
    if s == [] {
      e := NoExponent;
    } else {
      var n := if s[1] == 0x2B || s[1] == 0x2D then 1 else 0;
      e := Exponent(s[0], s[1..1 + n], s[1 + n..]);
      DigitsAreDigits(s[1 + n..]);
      assert s[1 + n..][..|s| - 1 - n] == s[1 + n..];
      assert s == [s[0]] + s[1..1 + n] + s[1 + n..];
    }
  }

  lemma TailIsWritten(t: Str) returns (fraction: Str, e: Exponent)
    requires Json.IsTail(t)
    ensures AreParts(Parts(false, [0x30], fraction, e)) && t == TailText(fraction, e)
  {
    if t != [] && t[0] == 0x2E {
      var n := Digits(t[1..]);
      fraction := t[1..1 + n];
      e := ExponentIsWritten(t[1 + n..]);
      DigitsAreDigits(t[1..]);
      assert t[1..][..n] == fraction;
      assert t == [0x2E] + fraction + t[1 + n..];
    } else {
      fraction := [];
      e := ExponentIsWritten(t);
    }
  }

  lemma WholeIs(body: Str) returns (whole: Str)
    requires Digits(body) > 0 && (body[0] == 0x30 ==> Digits(body) == 1)
    ensures AreParts(Parts(false, whole, [], NoExponent)) && body == whole + body[Digits(body)..]
  {
    whole := body[..Digits(body)];
    DigitsAreDigits(body);
    assert whole[0] == body[0];
  }

  lemma BodyIsParts(body: Str) returns (p: Parts)
    requires Digits(body) > 0 && (body[0] == 0x30 ==> Digits(body) == 1) && Json.IsTail(body[Digits(body)..])
    ensures AreParts(p) && !p.minus && p.whole + TailText(p.fraction, p.exponent) == body
  {
    var whole := WholeIs(body);
    var fraction, e := TailIsWritten(body[Digits(body)..]);
    p := Parts(false, whole, fraction, e);
  }

  lemma NumeralIsParts(s: Str) returns (p: Parts)
    requires IsNumeral(s)
    ensures AreParts(p) && s == PartsText(p)
  {
    if s[0] == 0x2D {
      p := BodyIsParts(s[1..]);
      p := p.(minus := true);
      assert s == [0x2D] + s[1..];
    } else {
      p := BodyIsParts(s);
      assert s == [] + s;
    }
  }

  /** A numeral is a minus or none, a whole part without leading zeros, a fraction or none and an exponent or none. */
  lemma NumeralIff(s: Str)
    ensures IsNumeral(s) <==> exists p :: AreParts(p) && s == PartsText(p)
  {
    if IsNumeral(s) {
      var p := NumeralIsParts(s);
    }
    forall p | AreParts(p) && s == PartsText(p) ensures IsNumeral(s) {
      PartsAreNumeral(p);
    }
  }
}
