/** UTF-8 (section 3 of RFC 3629) as `TextEncoder` writes it and a fatal `TextDecoder` reads it. */
module Utf8 {
  import opened Wrappers
  import opened Text

  type Byte = x: int | 0 <= x < 0x100

  type Bytes = seq<Byte>

  predicate IsScalar(c: int) {
    0 <= c < 0xD800 || 0xE000 <= c < 0x110000
  }

  const REPLACEMENT: int := 0xFFFD

  // ---- between code units and scalar values ----

  function PairValue(high: Unit, low: Unit): (c: int)
    requires IsHigh(high) && IsLow(low)
    ensures 0x10000 <= c < 0x110000
  {
    0x10000 + (high - 0xD800) * 0x400 + (low - 0xDC00)
  }

  /** How many units the first character takes. */
  function Width(s: Str): (n: nat)
    requires s != []
    ensures 1 <= n <= |s|
  {
    if PairFirst(s) then 2 else 1
  }

  /** The first character; a surrogate alone counts as the replacement character. */
  function Scalar(s: Str): (c: int)
    requires s != []
    ensures IsScalar(c)
  {
    if PairFirst(s) then PairValue(s[0], s[1])
    else if IsHigh(s[0]) || IsLow(s[0]) then REPLACEMENT
    else s[0]
  }

  function Units(c: int): (s: Str)
    requires IsScalar(c)
    ensures 1 <= |s| <= 2
  {
    if c < 0x10000 then [c] else [0xD800 + (c - 0x10000) / 0x400, 0xDC00 + (c - 0x10000) % 0x400]
  }

  // ---- between scalar values and bytes ----

  function EncodeScalar(c: int): (b: Bytes)
    requires IsScalar(c)
    ensures 1 <= |b| <= 4
  {
    if c < 0x80 then [c]
    else if c < 0x800 then [0xC0 + c / 64, 0x80 + c % 64]
    else if c < 0x10000 then [0xE0 + c / 64 / 64, 0x80 + c / 64 % 64, 0x80 + c % 64]
    else [0xF0 + c / 64 / 64 / 64, 0x80 + c / 64 / 64 % 64, 0x80 + c / 64 % 64, 0x80 + c % 64]
  }

  predicate IsTail(b: Byte) {
    0x80 <= b < 0xC0
  }

  /** `q` with the six bits of a tail byte after it. */
  function Join(q: int, b: Byte): int {
    q * 64 + (b as int - 0x80)
  }

  datatype Lead = Malformed | Lead(scalar: int, width: nat)

  /** The character the bytes start with. A longer form than needed, a surrogate and a value too large are malformed. */
  function First(b: Bytes): (r: Lead)
    ensures r.Lead? ==> IsScalar(r.scalar) && 1 <= r.width <= |b|
  {
    if b == [] then Malformed
    else if b[0] < 0x80 then Lead(b[0], 1)
    else if 0xC0 <= b[0] < 0xE0 then
      if |b| >= 2 && IsTail(b[1]) then
        var c := Join(b[0] as int - 0xC0, b[1]);
        if c >= 0x80 then Lead(c, 2) else Malformed
      else Malformed
    else if 0xE0 <= b[0] < 0xF0 then
      if |b| >= 3 && IsTail(b[1]) && IsTail(b[2]) then
        var c := Join(Join(b[0] as int - 0xE0, b[1]), b[2]);
        if c >= 0x800 && IsScalar(c) then Lead(c, 3) else Malformed
      else Malformed
    else if 0xF0 <= b[0] then
      if |b| >= 4 && IsTail(b[1]) && IsTail(b[2]) && IsTail(b[3]) then
        var c := Join(Join(Join(b[0] as int - 0xF0, b[1]), b[2]), b[3]);
        if c >= 0x10000 && IsScalar(c) then Lead(c, 4) else Malformed
      else Malformed
    else Malformed
  }

  // ---- whole texts ----

  function Encode(s: Str): Bytes {
    if s == [] then [] else EncodeScalar(Scalar(s)) + Encode(s[Width(s)..])
  }

  function DecodeAll(b: Bytes): Option<Str>
    decreases |b|
  {
    if b == [] then Some([])
    else
      var lead := First(b);
      if lead.Malformed? then None
      else
        var more := DecodeAll(b[lead.width..]);
        if more.None? then None else Some(Units(lead.scalar) + more.value)
  }

  const BYTE_ORDER_MARK: Bytes := [0xEF, 0xBB, 0xBF]

  /** A byte order mark in front is not part of the text. */
  function Decode(b: Bytes): Option<Str> {
    if BYTE_ORDER_MARK <= b then DecodeAll(b[3..]) else DecodeAll(b)
  }

  /** The text with each surrogate that stands alone replaced. */
  function Repaired(s: Str): Str {
    if s == [] then [] else Units(Scalar(s)) + Repaired(s[Width(s)..])
  }

  // ---- one character ----

  lemma TwoDigits(c: int)
    ensures (c / 64) * 64 + c % 64 == c
  {
  }

  lemma ScalarComesBack(c: int, rest: Bytes)
    requires IsScalar(c)
    ensures First(EncodeScalar(c) + rest) == Lead(c, |EncodeScalar(c)|)
  {
    var e := EncodeScalar(c);
    var b := e + rest;
    assert forall i :: 0 <= i < |e| ==> b[i] == e[i];
    TwoDigits(c);
    TwoDigits(c / 64);
    TwoDigits(c / 64 / 64);
  }

  lemma JoinParts(q: int, b: Byte)
    requires IsTail(b)
    ensures Join(q, b) / 64 == q && Join(q, b) % 64 == b - 0x80
  {
  }

  lemma FirstIsEncoded(b: Bytes)
    requires First(b).Lead?
    ensures b[..First(b).width] == EncodeScalar(First(b).scalar)
  {
    var n := First(b).width;
    if n == 2 {
      JoinParts(b[0] as int - 0xC0, b[1]);
    } else if n == 3 {
      var q := b[0] as int - 0xE0;
      JoinParts(q, b[1]);
      JoinParts(Join(q, b[1]), b[2]);
    } else if n == 4 {
      var q := b[0] as int - 0xF0;
      JoinParts(q, b[1]);
      JoinParts(Join(q, b[1]), b[2]);
      JoinParts(Join(Join(q, b[1]), b[2]), b[3]);
    }
  }

  /** A scalar's units read as that scalar, whatever follows. */
  lemma UnitsComeBack(c: int, rest: Str)
    requires IsScalar(c)
    ensures var s := Units(c) + rest; Scalar(s) == c && Width(s) == |Units(c)| && s[Width(s)..] == rest
  {
    var s := Units(c) + rest;
    assert s[|Units(c)|..] == rest;
    if c >= 0x10000 {
      assert s[0] == Units(c)[0] && s[1] == Units(c)[1];
    } else {
      assert s[0] == c;
    }
  }

  lemma PairComesBack(s: Str)
    requires PairFirst(s)
    ensures Units(Scalar(s)) == s[..2]
  {
    var h: int, l: int := s[0] - 0xD800, s[1] - 0xDC00;
    assert (h * 0x400 + l) / 0x400 == h && (h * 0x400 + l) % 0x400 == l;
  }

  // ---- whole texts there and back ----

  /** What was encoded decodes to the text with its lone surrogates replaced. */
  lemma {:induction false} DecodeUndoesEncode(s: Str)
    ensures DecodeAll(Encode(s)) == Some(Repaired(s))
    decreases |s|
  {
    if s != [] {
      var e, rest := EncodeScalar(Scalar(s)), Encode(s[Width(s)..]);
      ScalarComesBack(Scalar(s), rest);
      DecodeUndoesEncode(s[Width(s)..]);
      assert (e + rest)[|e|..] == rest;
    }
  }

  /** Replacing changes nothing exactly in well-formed text. */
  lemma {:induction false} RepairedIffWellFormed(s: Str)
    ensures Repaired(s) == s <==> WellFormed(s)
    decreases |s|
  {
    if s != [] {
      var n := Width(s);
      RepairedIffWellFormed(s[n..]);
      assert s == s[..n] + s[n..];
      if PairFirst(s) {
        PairComesBack(s);
      }
      assert |Units(Scalar(s))| == n;
      assert Repaired(s)[..n] == Units(Scalar(s)) && Repaired(s)[n..] == Repaired(s[n..]);
    }
  }

  lemma EncodeInFront(c: int, more: Str)
    requires IsScalar(c) && WellFormed(more)
    ensures Encode(Units(c) + more) == EncodeScalar(c) + Encode(more) && WellFormed(Units(c) + more)
  {
    UnitsComeBack(c, more);
    UnitsAreWellFormed(c);
    WellFormedConcat(Units(c), more);
  }

  lemma FrontIsEncoded(b: Bytes, c: int, width: nat, more: Str)
    requires IsScalar(c) && width <= |b| && b[..width] == EncodeScalar(c)
    requires Encode(more) == b[width..] && WellFormed(more)
    ensures Encode(Units(c) + more) == b && WellFormed(Units(c) + more)
  {
    EncodeInFront(c, more);
    assert b == b[..width] + b[width..];
  }

  /** Only what `Encode` writes is accepted: bytes that decode are the encoding of their text. */
  lemma {:induction false} EncodeUndoesDecode(b: Bytes)
    requires DecodeAll(b).Some?
    ensures Encode(DecodeAll(b).value) == b && WellFormed(DecodeAll(b).value)
    decreases |b|
  {
    if b != [] {
      var lead := First(b);
      FirstIsEncoded(b);
      EncodeUndoesDecode(b[lead.width..]);
      FrontIsEncoded(b, lead.scalar, lead.width, DecodeAll(b[lead.width..]).value);
    }
  }

  lemma UnitsAreWellFormed(c: int)
    requires IsScalar(c)
    ensures WellFormed(Units(c))
  {
    if c >= 0x10000 {
      assert PairFirst(Units(c)) && Units(c)[2..] == [];
    } else {
      assert Units(c)[1..] == [];
    }
  }

  // ---- a byte order mark ----

  predicate Marked(s: Str) {
    s != [] && s[0] == 0xFEFF
  }

  lemma MarkEncodes()
    ensures EncodeScalar(0xFEFF) == BYTE_ORDER_MARK
  {
    assert 0xFEFF / 64 == 1019 && 0xFEFF % 64 == 63;
    assert 1019 / 64 == 15 && 1019 % 64 == 59;
  }

  lemma MarkIsThere(s: Str)
    ensures BYTE_ORDER_MARK <= Encode(s) <==> Marked(s)
  {
    MarkEncodes();
    if s != [] {
      var rest := Encode(s[Width(s)..]);
      ScalarComesBack(Scalar(s), rest);
      if BYTE_ORDER_MARK <= Encode(s) {
        var tail := Encode(s)[3..];
        assert Encode(s) == BYTE_ORDER_MARK + tail;
        ScalarComesBack(0xFEFF, tail);
        assert Scalar(s) == 0xFEFF;
      }
    }
  }

  /** Decoding gives the text back exactly when it is well formed and starts with no byte order mark. */
  lemma TextComesBackIff(s: Str)
    ensures Decode(Encode(s)) == Some(s) <==> WellFormed(s) && !Marked(s)
  {
    MarkIsThere(s);
    DecodeUndoesEncode(s);
    RepairedIffWellFormed(s);
    if Marked(s) {
      MarkEncodes();
      assert Encode(s)[3..] == Encode(s[1..]);
      DecodeUndoesEncode(s[1..]);
      RepairedIsNoLonger(s[1..]);
    }
  }

  lemma {:induction false} RepairedIsNoLonger(s: Str)
    ensures |Repaired(s)| == |s|
    decreases |s|
  {
    if s != [] {
      RepairedIsNoLonger(s[Width(s)..]);
      assert |Units(Scalar(s))| == Width(s);
    }
  }
}
