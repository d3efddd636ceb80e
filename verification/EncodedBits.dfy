/**
 Where the bits go. A character's bytes are those of the table in section 3 of RFC 3629, in the order of the characters
 themselves; and the symbols of a pairing blob spell the bits of its bytes, six at a time (section 4 of RFC 4648), in the
 alphabet of section 5.
 */
module EncodedBits {
  import opened Text
  import opened Utf8
  import opened Base64Url

  // ---- characters ----

  /** What the first byte of so many adds to the bits of the character in it. */
  function LeadMark(width: nat): int {
    if width <= 1 then 0 else if width == 2 then 0xC0 else if width == 3 then 0xE0 else 0xF0
  }

  /** The bits behind the marks, read as one number. */
  function Payload(b: Bytes): int
    requires 1 <= |b| <= 4
  {
    var lead := b[0] as int - LeadMark(|b|);
    if |b| == 1 then lead
    else if |b| == 2 then lead * 64 + Low(b[1])
    else if |b| == 3 then lead * 4096 + Low(b[1]) * 64 + Low(b[2])
    else lead * 262144 + Low(b[1]) * 4096 + Low(b[2]) * 64 + Low(b[3])
  }

  function Low(b: Byte): int {
    b as int - 0x80
  }

  /** As many bytes as the character needs, the first marked with their number, and in them the character's bits. */
  lemma CharacterIsInTheTable(c: int)
    requires IsScalar(c)
    ensures var e := EncodeScalar(c);
            && |e| == (if c < 0x80 then 1 else if c < 0x800 then 2 else if c < 0x10000 then 3 else 4)
            && (forall i :: 1 <= i < |e| ==> IsTail(e[i]))
            && Payload(e) == c
  {
    TwoDigits(c);
    TwoDigits(c / 64);
    TwoDigits(c / 64 / 64);
  }

  predicate Lower(a: Bytes, b: Bytes) {
    exists k :: 0 <= k < |a| && k < |b| && a[..k] == b[..k] && a[k] < b[k]
  }

  lemma LowerAt(a: Bytes, b: Bytes, k: nat)
    requires k < |a| && k < |b| && a[k] < b[k] && forall i :: 0 <= i < k ==> a[i] == b[i]
    ensures Lower(a, b)
  {
    assert a[..k] == b[..k];
  }

  lemma DigitsCompare(c: int, d: int)
    requires 0 <= c < d
    ensures c / 64 < d / 64 || (c / 64 == d / 64 && c % 64 < d % 64)
  {
  }

  /** Bytes compare as the characters do. */
  lemma BytesKeepTheOrder(c: int, d: int)
    requires IsScalar(c) && IsScalar(d) && c < d
    ensures Lower(EncodeScalar(c), EncodeScalar(d))
  {
    var e, f := EncodeScalar(c), EncodeScalar(d);
    if |e| < |f| {
      LowerAt(e, f, 0);
    } else if |e| == 1 {
      LowerAt(e, f, 0);
    } else {
      DigitsCompare(c, d);
      if c / 64 == d / 64 {
        LowerAt(e, f, |e| - 1);
      } else {
        HigherDigitsCompare(c, d);
      }
    }
  }

  lemma HigherDigitsCompare(c: int, d: int)
    requires IsScalar(c) && IsScalar(d) && c / 64 < d / 64 && |EncodeScalar(c)| == |EncodeScalar(d)| >= 2
    ensures Lower(EncodeScalar(c), EncodeScalar(d))
  {
    var e, f := EncodeScalar(c), EncodeScalar(d);
    if |e| == 2 {
      LowerAt(e, f, 0);
    } else {
      DigitsCompare(c / 64, d / 64);
      if c / 64 / 64 == d / 64 / 64 {
        LowerAt(e, f, |e| - 2);
      } else if |e| == 3 {
        LowerAt(e, f, 0);
      } else {
        DigitsCompare(c / 64 / 64, d / 64 / 64);
        LowerAt(e, f, if c / 64 / 64 / 64 == d / 64 / 64 / 64 then 1 else 0);
      }
    }
  }

  /** Surrogate pairs are counted through in order, the low one first, from the first character past 16 bits. */
  lemma PairsCountUp(high: Unit, low: Unit)
    requires IsHigh(high) && IsLow(low)
    ensures PairValue(0xD800, 0xDC00) == 0x10000
    ensures low < 0xDFFF ==> PairValue(high, low + 1) == PairValue(high, low) + 1
    ensures low == 0xDFFF && high < 0xDBFF ==> PairValue(high + 1, 0xDC00) == PairValue(high, low) + 1
  {
  }

  // ---- sextets ----

  /** The lowest so many bits of a number, the highest of them first. */
  function Bits(x: nat, n: nat): seq<nat>
    decreases n
  {
    if n == 0 then [] else Bits(x / 2, n - 1) + [x % 2]
  }

  function Power(k: nat): (p: nat)
    ensures p > 0
  {
    if k == 0 then 1 else 2 * Power(k - 1)
  }

  /** Bits put behind bits. */
  lemma {:induction false} BitsJoin(high: nat, low: nat, n: nat, k: nat)
    requires low < Power(k)
    ensures Bits(high * Power(k) + low, n + k) == Bits(high, n) + Bits(low, k)
    decreases k
  {
    if k == 0 {
      assert Bits(high, n) + [] == Bits(high, n);
    } else {
      var half := high * Power(k - 1);
      assert high * Power(k) == 2 * half;
      assert (2 * half + low) / 2 == half + low / 2 && (2 * half + low) % 2 == low % 2;
      BitsJoin(high, low / 2, n, k - 1);
      Associates(Bits(high, n), Bits(low / 2, k - 1), [low % 2]);
    }
  }

  lemma Associates(a: seq<nat>, b: seq<nat>, c: seq<nat>)
    ensures a + (b + c) == (a + b) + c
  {
  }

  /** A way of telling the bits of a number. */
  type Telling = (nat, nat) -> seq<nat>

  /** The bits of one number after another, so many of each. */
  function InARow(bits: Telling, n: nat, row: seq<nat>): seq<nat> {
    if row == [] then [] else InARow(bits, n, row[..|row| - 1]) + bits(row[|row| - 1], n)
  }

  lemma {:induction false} RowsJoin(bits: Telling, n: nat, row: seq<nat>, k: nat)
    requires k <= |row|
    ensures InARow(bits, n, row) == InARow(bits, n, row[..k]) + InARow(bits, n, row[k..])
    decreases |row|
  {
    if k == |row| {
      assert row[..k] == row;
      assert InARow(bits, n, row) + [] == InARow(bits, n, row);
    } else {
      var last := |row| - 1;
      RowsJoin(bits, n, row[..last], k);
      assert row[..last][..k] == row[..k] && row[..last][k..] == row[k..][..last - k];
      Associates(InARow(bits, n, row[..k]), InARow(bits, n, row[k..][..last - k]), bits(row[last], n));
    }
  }

  lemma RowOfTwo(bits: Telling, n: nat, row: seq<nat>)
    requires |row| == 2
    ensures InARow(bits, n, row[..1]) == bits(row[0], n)
    ensures InARow(bits, n, row) == bits(row[0], n) + bits(row[1], n)
  {
    assert row[..1][..0] == [] && InARow(bits, n, row[..1][..0]) == [];
    assert [] + bits(row[0], n) == bits(row[0], n);
  }

  lemma RowOfThree(bits: Telling, n: nat, row: seq<nat>)
    requires |row| == 3
    ensures InARow(bits, n, row) == bits(row[0], n) + bits(row[1], n) + bits(row[2], n)
  {
    RowOfTwo(bits, n, row[..2]);
  }

  lemma RowOfFour(bits: Telling, n: nat, row: seq<nat>)
    requires |row| == 4
    ensures InARow(bits, n, row) == bits(row[0], n) + bits(row[1], n) + bits(row[2], n) + bits(row[3], n)
  {
    RowOfThree(bits, n, row[..3]);
  }

  // ---- a group of three bytes ----

  predicate JoinsAt(bits: Telling, high: nat, low: nat, n: nat, k: nat) {
    low < Power(k) ==> bits(high * Power(k) + low, n + k) == bits(high, n) + bits(low, k)
  }

  /** All that is used of the bits below: how they join, and that zero has none set. */
  ghost predicate Joins(bits: Telling) {
    && (forall high, low, n, k :: JoinsAt(bits, high, low, n, k))
    && bits(0, 4) == [0, 0, 0, 0] && bits(0, 2) == [0, 0]
  }

  lemma Powers()
    ensures Power(2) == 4 && Power(4) == 16 && Power(6) == 64
  {
    assert Power(2) == 2 * Power(1) && Power(4) == 2 * Power(3) && Power(6) == 2 * Power(5);
    assert Power(3) == 2 * Power(2) && Power(5) == 2 * Power(4);
  }

  lemma ByteBits(bits: Telling, x: Byte)
    requires Joins(bits)
    ensures bits(x, 8) == bits(x / 4, 6) + bits(x % 4, 2)
    ensures bits(x, 8) == bits(x / 16, 4) + bits(x % 16, 4)
    ensures bits(x, 8) == bits(x / 64, 2) + bits(x % 64, 6)
  {
    Powers();
    assert JoinsAt(bits, x / 4, x % 4, 6, 2);
    assert JoinsAt(bits, x / 16, x % 16, 4, 4);
    assert JoinsAt(bits, x / 64, x % 64, 2, 6);
  }

  lemma SextetBits(bits: Telling, a: Byte, b: Byte, c: Byte)
    requires Joins(bits)
    ensures bits(a % 4 * 16 + b / 16, 6) == bits(a % 4, 2) + bits(b / 16, 4)
    ensures bits(b % 16 * 4 + c / 64, 6) == bits(b % 16, 4) + bits(c / 64, 2)
  {
    Powers();
    assert JoinsAt(bits, a % 4, b / 16, 2, 4);
    assert JoinsAt(bits, b % 16, c / 64, 4, 2);
  }

  /** Three bytes in four sextets; `b` and `c` are zero where the group is not full. */
  lemma GroupBits(bits: Telling, a: Byte, b: Byte, c: Byte)
    requires Joins(bits)
    ensures bits(a / 4, 6) + bits(a % 4 * 16 + b / 16, 6) == bits(a, 8) + bits(b / 16, 4)
    ensures bits(a / 4, 6) + bits(a % 4 * 16 + b / 16, 6) + bits(b % 16 * 4 + c / 64, 6)
         == bits(a, 8) + bits(b, 8) + bits(c / 64, 2)
    ensures bits(a / 4, 6) + bits(a % 4 * 16 + b / 16, 6) + bits(b % 16 * 4 + c / 64, 6) + bits(c % 64, 6)
         == bits(a, 8) + bits(b, 8) + bits(c, 8)
  {
    ByteBits(bits, a);
    ByteBits(bits, b);
    ByteBits(bits, c);
    SextetBits(bits, a, b, c);
    Regroup(bits(a / 4, 6), bits(a % 4, 2), bits(b / 16, 4), bits(b % 16, 4), bits(c / 64, 2), bits(c % 64, 6));
  }

  lemma Regroup(a: seq<nat>, a': seq<nat>, b: seq<nat>, b': seq<nat>, c: seq<nat>, c': seq<nat>)
    ensures a + (a' + b) == (a + a') + b
    ensures a + (a' + b) + (b' + c) == (a + a') + (b + b') + c
    ensures a + (a' + b) + (b' + c) + c' == (a + a') + (b + b') + (c + c')
  {
  }

  // ---- all of them ----

  /** The zeros that fill up the last symbol. */
  function Filling(n: nat): seq<nat> {
    if n % 3 == 1 then [0, 0, 0, 0] else if n % 3 == 2 then [0, 0] else []
  }

  lemma FullGroup(bits: Telling, b: Bytes, d: seq<Sextet>)
    requires Joins(bits) && |b| == 3 && |d| == 4 && d[0] == b[0] / 4 && d[1] == b[0] % 4 * 16 + b[1] / 16
    requires d[2] == b[1] % 16 * 4 + b[2] / 64 && d[3] == b[2] % 64
    ensures InARow(bits, 6, d) == InARow(bits, 8, b)
  {
    GroupBits(bits, b[0], b[1], b[2]);
    FullRows(bits, b, d);
  }

  lemma FullRows(bits: Telling, b: Bytes, d: seq<Sextet>)
    requires |b| == 3 && |d| == 4
    requires bits(d[0], 6) + bits(d[1], 6) + bits(d[2], 6) + bits(d[3], 6) == bits(b[0], 8) + bits(b[1], 8) + bits(b[2], 8)
    ensures InARow(bits, 6, d) == InARow(bits, 8, b)
  {
    RowOfFour(bits, 6, d);
    RowOfThree(bits, 8, b);
  }

  lemma {:induction false} Spelled(bits: Telling, b: Bytes)
    requires Joins(bits)
    ensures InARow(bits, 6, Sextets(b)) == InARow(bits, 8, b) + Filling(|b|)
    decreases |b|
  {
    var d := Sextets(b);
    if |b| >= 3 {
      Spelled(bits, b[3..]);
      FullGroup(bits, b[..3], d[..4]);
      assert d[4..] == Sextets(b[3..]);
      MoreSpelled(bits, b, d);
    } else if |b| == 2 {
      GroupBits(bits, b[0], b[1], 0);
      RowOfThree(bits, 6, d);
      RowOfTwo(bits, 8, b);
    } else if |b| == 1 {
      GroupBits(bits, b[0], 0, 0);
      RowOfTwo(bits, 6, d);
      RowOfTwo(bits, 8, [b[0], 0]);
      assert [b[0], 0][..1] == b;
    }
  }

  lemma MoreSpelled(bits: Telling, b: Bytes, d: seq<Sextet>)
    requires |b| >= 3 && |d| >= 4 && InARow(bits, 6, d[..4]) == InARow(bits, 8, b[..3])
    requires InARow(bits, 6, d[4..]) == InARow(bits, 8, b[3..]) + Filling(|b| - 3)
    ensures InARow(bits, 6, d) == InARow(bits, 8, b) + Filling(|b|)
  {
    var filling := Filling(|b|);
    assert filling == Filling(|b| - 3);
    RowsJoin(bits, 6, d, 4);
    RowsJoin(bits, 8, b, 3);
    Associates(InARow(bits, 8, b[..3]), InARow(bits, 8, b[3..]), filling);
  }

  lemma BitsAreTold()
    ensures Joins(Bits)
  {
    forall high: nat, low: nat, n: nat, k: nat ensures JoinsAt(Bits, high, low, n, k) {
      if low < Power(k) {
        BitsJoin(high, low, n, k);
      }
    }
  }

  /** The symbols spell the bits of the bytes in their order, and after them zeros to the end of the last symbol. */
  lemma SymbolsSpellTheBits(b: Bytes)
    ensures InARow(Bits, 6, Sextets(b)) == InARow(Bits, 8, b) + Filling(|b|)
  {
    BitsAreTold();
    Spelled(Bits, b);
  }

  const UPPER: Str := Ascii("ABCDEFGHIJKLMNOPQRSTUVWXYZ")
  const LOWER: Str := Ascii("abcdefghijklmnopqrstuvwxyz")
  const DIGITS: Str := Ascii("0123456789")

  /** The alphabet of section 5, a symbol for each sextet. */
  function Alphabet(): Str {
    UPPER + LOWER + DIGITS + [DASH, UNDERSCORE]
  }

  lemma UpperLetters(n: nat)
    requires n < 26
    ensures UPPER[n] == 0x41 + n
  {
  }

  lemma LowerLetters(n: nat)
    requires n < 26
    ensures LOWER[n] == 0x61 + n
  {
  }

  lemma DecimalDigits(n: nat)
    requires n < 10
    ensures DIGITS[n] == 0x30 + n
  {
  }

  lemma AlphabetInParts(upper: Str, lower: Str, digits: Str, n: nat)
    requires |upper| == |lower| == 26 && |digits| == 10 && n < 64
    ensures (upper + lower + digits + [DASH, UNDERSCORE])[n]
         == if n < 26 then upper[n] else if n < 52 then lower[n - 26] else if n < 62 then digits[n - 52]
            else if n == 62 then DASH else UNDERSCORE
  {
  }

  lemma SymbolsOfTheAlphabet(n: Sextet)
    ensures n < |Alphabet()| && UrlSymbol(n) == Alphabet()[n]
  {
    AlphabetInParts(UPPER, LOWER, DIGITS, n);
    if n < 26 {
      UpperLetters(n);
    } else if n < 52 {
      LowerLetters(n - 26);
    } else if n < 62 {
      DecimalDigits(n - 52);
    }
  }
}
