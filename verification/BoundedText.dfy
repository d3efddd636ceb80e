/**
 Text cut to a number of UTF-8 bytes without cutting a character, and without leaving half of the marker that stands
 for something redacted.
 */
module BoundedText {
  import opened Wrappers
  import opened Text
  import opened Utf8

  function ByteCount(s: Str): nat {
    |Encode(s)|
  }

  /** The bytes of the first character. */
  function FirstBytes(s: Str): (n: nat)
    requires s != []
    ensures 1 <= n <= 4
  {
    |EncodeScalar(Scalar(s))|
  }

  /** Position `n` stands between two characters, or at an end. */
  predicate Boundary(s: Str, n: nat) {
    n == 0 || (s != [] && n >= Width(s) && Boundary(s[Width(s)..], n - Width(s)))
  }

  // ---- the longest prefix that fits ----

  function Bounded(s: Str, maxBytes: int): (r: Str)
    decreases |s|
  {
    if s == [] || FirstBytes(s) > maxBytes then []
    else s[..Width(s)] + Bounded(s[Width(s)..], maxBytes - FirstBytes(s))
  }

  method BoundedUtf8(value: Str, maxBytes: int) returns (result: Str)
    ensures result == Bounded(value, maxBytes)
  {
    var used, rest := 0, value;
    result := [];
    assert [] + Bounded(value, maxBytes) == Bounded(value, maxBytes);
    while rest != []
      invariant result + Bounded(rest, maxBytes - used) == Bounded(value, maxBytes)
      decreases |rest|
    {
      var n := Width(rest);
      var width := ByteCount(rest[..n]);
      OneCharacter(rest);
      if used + width > maxBytes {
        break;
      }
      Appended(result, rest[..n], Bounded(rest[n..], maxBytes - used - width));
      result := result + rest[..n];
      used := used + width;
      rest := rest[n..];
    }
    assert result + [] == result;
  }

  lemma Appended(a: Str, b: Str, c: Str)
    ensures a + (b + c) == (a + b) + c
  {
  }

  lemma OneCharacter(s: Str)
    requires s != []
    ensures ByteCount(s[..Width(s)]) == FirstBytes(s)
  {
    var first := s[..Width(s)];
    assert Width(first) == Width(s) && Scalar(first) == Scalar(s);
    assert first[Width(first)..] == [];
    assert Encode(first) == EncodeScalar(Scalar(s)) + [];
  }

  lemma FrontBytes(s: Str, n: nat)
    requires s != [] && Width(s) <= n <= |s|
    ensures ByteCount(s[..n]) == FirstBytes(s) + ByteCount(s[Width(s)..][..n - Width(s)])
  {
    var w := Width(s);
    assert Width(s[..n]) == w && Scalar(s[..n]) == Scalar(s);
    assert s[..n][w..] == s[w..][..n - w];
  }

  lemma {:induction false} BoundaryInside(s: Str, n: nat)
    requires Boundary(s, n)
    ensures n <= |s|
    decreases |s|
  {
    if n > 0 {
      BoundaryInside(s[Width(s)..], n - Width(s));
    }
  }

  /** `r` is the prefix up to a character boundary, within the limit, and no longer such prefix is. */
  ghost predicate IsLongest(s: Str, maxBytes: nat, r: Str) {
    && r <= s && Boundary(s, |r|) && ByteCount(r) <= maxBytes
    && forall n: nat :: Boundary(s, n) && n <= |s| && ByteCount(s[..n]) <= maxBytes ==> n <= |r|
  }

  lemma NothingIsLongest(s: Str, maxBytes: nat)
    requires s == [] || FirstBytes(s) > maxBytes
    ensures IsLongest(s, maxBytes, [])
  {
    forall n: nat | Boundary(s, n) && n <= |s| && ByteCount(s[..n]) <= maxBytes ensures n == 0 {
      if n > 0 {
        FrontBytes(s, n);
      }
    }
  }

  lemma LongestInFront(s: Str, maxBytes: nat, more: Str)
    requires s != [] && FirstBytes(s) <= maxBytes
    requires IsLongest(s[Width(s)..], maxBytes - FirstBytes(s), more)
    ensures IsLongest(s, maxBytes, s[..Width(s)] + more)
  {
    var w := Width(s);
    var rest, r := s[w..], s[..w] + more;
    assert more == rest[..|more|];
    assert r == s[..|r|];
    FrontBytes(s, |r|);
    forall n: nat | Boundary(s, n) && n <= |s| && ByteCount(s[..n]) <= maxBytes ensures n <= |r| {
      if n > 0 {
        FrontBytes(s, n);
        assert Boundary(rest, n - w);
      }
    }
  }

  /** The cut text is the longest there is. */
  lemma {:induction false} BoundedIsLongest(s: Str, maxBytes: nat)
    ensures IsLongest(s, maxBytes, Bounded(s, maxBytes))
    decreases |s|
  {
    if s == [] || FirstBytes(s) > maxBytes {
      NothingIsLongest(s, maxBytes);
    } else {
      BoundedIsLongest(s[Width(s)..], maxBytes - FirstBytes(s));
      LongestInFront(s, maxBytes, Bounded(s[Width(s)..], maxBytes - FirstBytes(s)));
    }
  }

  lemma NothingFitsBelowZero(s: Str, maxBytes: int)
    requires maxBytes < 0
    ensures Bounded(s, maxBytes) == []
  {
  }

  // ---- the marker ----

  const MARKER: Str := Ascii("[redacted]")

  function LastIndexOf(s: Str, c: Unit): (i: int)
    ensures -1 <= i < |s|
    ensures i >= 0 ==> s[i] == c
    ensures forall j :: i < j < |s| ==> s[j] != c
  {
    if s == [] then -1
    else if s[|s| - 1] == c then |s| - 1
    else LastIndexOf(s[..|s| - 1], c)
  }

  /** The text ends in the beginning of a marker, without the end of it. */
  predicate EndsInCutMarker(s: Str) {
    var opening := LastIndexOf(s, OPEN_BRACKET);
    opening >= 0 && CLOSE_BRACKET !in s[opening..] && s[opening..] <= MARKER
  }

  function BoundedRedacted(redacted: Str, maxBytes: int): Str {
    var bounded := Bounded(redacted, maxBytes);
    if EndsInCutMarker(bounded) then
      Bounded(bounded[..LastIndexOf(bounded, OPEN_BRACKET)], maxBytes - 10) + MARKER
    else bounded
  }

  /** `redact` stands for the regular expressions that replace what looks like a credential. */
  method BoundedRedactedUtf8(value: Str, maxBytes: int, redact: Str -> Str) returns (bounded: Str)
    ensures bounded == BoundedRedacted(redact(value), maxBytes)
  {
    var redacted := redact(value);
    bounded := BoundedUtf8(redacted, maxBytes);
    var opening := LastIndexOf(bounded, OPEN_BRACKET);
    if opening >= 0 && CLOSE_BRACKET !in bounded[opening..] && bounded[opening..] <= MARKER {
      var room := maxBytes - ByteCount(MARKER);
      assert room == maxBytes - 10 by {
        MarkerBytes();
      }
      var front := BoundedUtf8(bounded[..opening], room);
      bounded := front + MARKER;
    }
  }

  lemma {:induction false} AsciiBytes(s: Str)
    requires forall i :: 0 <= i < |s| ==> s[i] < 0x80
    ensures ByteCount(s) == |s|
  {
    if s != [] {
      AsciiBytes(s[1..]);
    }
  }

  lemma MarkerBytes()
    ensures ByteCount(MARKER) == 10
  {
    BytesOfMarker(MARKER);
  }

  lemma BytesOfMarker(marker: Str)
    requires marker == MARKER
    ensures ByteCount(marker) == 10
  {
    assert forall i :: 0 <= i < |MARKER| ==> MARKER[i] < 0x80;
    AsciiBytes(marker);
  }

  /** Texts put together take their bytes together, unless a surrogate pair comes about between them. */
  lemma {:induction false} BytesAdd(a: Str, b: Str)
    requires b == [] || !IsLow(b[0])
    ensures ByteCount(a + b) == ByteCount(a) + ByteCount(b)
    decreases |a|
  {
    if a == [] {
      assert a + b == b;
    } else {
      var w := Width(a);
      assert Width(a + b) == w && Scalar(a + b) == Scalar(a);
      assert (a + b)[w..] == a[w..] + b;
      BytesAdd(a[w..], b);
    }
  }

  // ---- main results ----

  /** Whatever the limit, the result is a prefix of the redacted text, or such a prefix and the whole marker. */
  lemma PrefixOrPrefixAndMarker(redacted: Str, maxBytes: int)
    ensures var r := BoundedRedacted(redacted, maxBytes);
            r <= redacted || (|r| >= 10 && r[|r| - 10..] == MARKER && r[..|r| - 10] <= redacted)
  {
    BoundedIsPrefix(redacted, maxBytes);
    var bounded := Bounded(redacted, maxBytes);
    if EndsInCutMarker(bounded) {
      var front := bounded[..LastIndexOf(bounded, OPEN_BRACKET)];
      BoundedIsPrefix(front, maxBytes - 10);
      var r := Bounded(front, maxBytes - 10) + MARKER;
      assert r[|r| - 10..] == MARKER && r[..|r| - 10] == Bounded(front, maxBytes - 10);
    }
  }

  lemma BoundedIsPrefix(s: Str, maxBytes: int)
    ensures Bounded(s, maxBytes) <= s
  {
    if maxBytes < 0 {
      NothingFitsBelowZero(s, maxBytes);
    } else {
      BoundedIsLongest(s, maxBytes);
    }
  }

  /** The last `n` units of the text are the first `n` of a marker. */
  predicate EndsInPart(s: Str, n: nat) {
    n <= |s| && n <= |MARKER| && s[|s| - n..] == MARKER[..n]
  }

  lemma MarkerUnits()
    ensures |MARKER| == 10 && MARKER[0] == OPEN_BRACKET && MARKER[9] == CLOSE_BRACKET
    ensures forall i :: 1 <= i < 9 ==> MARKER[i] != OPEN_BRACKET && MARKER[i] != CLOSE_BRACKET
  {
  }

  lemma CutMarkerIsPart(s: Str)
    requires EndsInCutMarker(s)
    ensures exists n: nat :: 0 < n < 10 && EndsInPart(s, n)
  {
    MarkerUnits();
    var tail := s[LastIndexOf(s, OPEN_BRACKET)..];
    assert MARKER[9] in MARKER && tail != MARKER;
    assert EndsInPart(s, |tail|);
  }

  /** The one opening bracket of a marker's beginning is the last of the text. */
  lemma PartOpensLast(s: Str, part: Str)
    requires 0 < |part| <= |s| && part == s[|s| - |part|..] && part[0] == OPEN_BRACKET
    requires forall i :: 1 <= i < |part| ==> part[i] != OPEN_BRACKET && part[i] != CLOSE_BRACKET
    ensures LastIndexOf(s, OPEN_BRACKET) == |s| - |part| && CLOSE_BRACKET !in part
  {
    var from := |s| - |part|;
    assert s[from..][0] == s[from];
    forall j | from < j < |s| ensures s[j] != OPEN_BRACKET {
      assert s[from..][j - from] == s[j];
    }
    LastIndexIs(s, OPEN_BRACKET, from);
  }

  lemma LastIndexIs(s: Str, c: Unit, i: nat)
    requires i < |s| && s[i] == c && forall j :: i < j < |s| ==> s[j] != c
    ensures LastIndexOf(s, c) == i
  {
  }

  lemma PartIsCutMarker(s: Str, n: nat)
    requires 0 < n < 10 && EndsInPart(s, n)
    ensures EndsInCutMarker(s)
  {
    MarkerUnits();
    PartOpensLast(s, MARKER[..n]);
  }

  /** What the code looks for is exactly a text that ends in some but not all of a marker. */
  lemma CutMarkerIffPart(s: Str)
    ensures EndsInCutMarker(s) <==> exists n: nat :: 0 < n < 10 && EndsInPart(s, n)
  {
    if EndsInCutMarker(s) {
      CutMarkerIsPart(s);
    }
    forall n: nat | 0 < n < 10 && EndsInPart(s, n) ensures EndsInCutMarker(s) {
      PartIsCutMarker(s, n);
    }
  }

  lemma OneLongest(s: Str, maxBytes: nat, a: Str, b: Str)
    requires IsLongest(s, maxBytes, a) && IsLongest(s, maxBytes, b)
    ensures a == b
  {
    assert a == s[..|a|] && b == s[..|b|];
  }

  /** The whole marker, after as much of the text in front as leaves room for it. */
  ghost predicate IsRepaired(r: Str, front: Str, maxBytes: nat) {
    && |r| >= |MARKER| && r[|r| - |MARKER|..] == MARKER
    && if maxBytes >= 10 then IsLongest(front, maxBytes - 10, r[..|r| - |MARKER|]) else r == MARKER
  }

  /**
   What becomes of the longest beginning that fits: it is the result, unless it ends in a beginning of a marker; then that
   is dropped, and the whole marker put after the longest beginning of what is left that leaves room for it.
   */
  lemma RepairIsLongest(redacted: Str, maxBytes: nat, cut: Str)
    requires IsLongest(redacted, maxBytes, cut)
    ensures (forall n: nat :: 0 < n < 10 ==> !EndsInPart(cut, n)) ==> BoundedRedacted(redacted, maxBytes) == cut
    ensures forall n: nat :: 0 < n < 10 && EndsInPart(cut, n) ==>
              IsRepaired(BoundedRedacted(redacted, maxBytes), cut[..|cut| - n], maxBytes)
  {
    BoundedIsLongest(redacted, maxBytes);
    OneLongest(redacted, maxBytes, cut, Bounded(redacted, maxBytes));
    CutMarkerIffPart(cut);
    forall n: nat | 0 < n < 10 && EndsInPart(cut, n)
      ensures IsRepaired(BoundedRedacted(redacted, maxBytes), cut[..|cut| - n], maxBytes)
    {
      PartIsRepaired(redacted, maxBytes, cut, n);
    }
  }

  lemma PartIsRepaired(redacted: Str, maxBytes: nat, cut: Str, n: nat)
    requires cut == Bounded(redacted, maxBytes) && 0 < n < 10 && EndsInPart(cut, n) && EndsInCutMarker(cut)
    ensures IsRepaired(BoundedRedacted(redacted, maxBytes), cut[..|cut| - n], maxBytes)
  {
    MarkerUnits();
    PartOpensLast(cut, MARKER[..n]);
    var front := cut[..|cut| - n];
    var kept := Bounded(front, maxBytes - 10);
    MarkerComesLast(kept);
    if maxBytes >= 10 {
      BoundedIsLongest(front, maxBytes - 10);
    } else {
      NothingFitsBelowZero(front, maxBytes - 10);
    }
  }

  lemma MarkerComesLast(kept: Str)
    ensures var r := kept + MARKER;
            |r| >= |MARKER| && r[|r| - |MARKER|..] == MARKER && r[..|r| - |MARKER|] == kept
            && (kept == [] ==> r == MARKER)
  {
  }

  /** It never ends in a marker cut short: in none of a marker's beginnings but the whole of it. */
  lemma NeverEndsInCutMarker(redacted: Str, maxBytes: int)
    ensures forall n: nat :: 0 < n < 10 ==> !EndsInPart(BoundedRedacted(redacted, maxBytes), n)
    ensures !EndsInCutMarker(BoundedRedacted(redacted, maxBytes))
  {
    CutMarkerIffPart(BoundedRedacted(redacted, maxBytes));
    var bounded := Bounded(redacted, maxBytes);
    if EndsInCutMarker(bounded) {
      var front := Bounded(bounded[..LastIndexOf(bounded, OPEN_BRACKET)], maxBytes - 10);
      var r := front + MARKER;
      assert r[|r| - 1] == MARKER[9] == CLOSE_BRACKET;
      var opening := LastIndexOf(r, OPEN_BRACKET);
      assert opening >= 0 ==> r[opening..][|r| - 1 - opening] == CLOSE_BRACKET;
    }
  }

  /** It is within the limit exactly when the limit leaves room for the marker or no marker had to be put in. */
  lemma WithinLimitIff(redacted: Str, maxBytes: nat)
    ensures ByteCount(BoundedRedacted(redacted, maxBytes)) <= maxBytes
       <==> maxBytes >= 10 || !EndsInCutMarker(Bounded(redacted, maxBytes))
  {
    BoundedIsLongest(redacted, maxBytes);
    var bounded := Bounded(redacted, maxBytes);
    if EndsInCutMarker(bounded) {
      var front := bounded[..LastIndexOf(bounded, OPEN_BRACKET)];
      var kept := Bounded(front, maxBytes - 10);
      MarkerBytes();
      BytesAdd(kept, MARKER);
      if maxBytes >= 10 {
        BoundedIsLongest(front, maxBytes - 10);
      }
    }
  }

  /** A limit below the marker's length can be exceeded: half a marker that fits becomes a whole one that does not. */
  lemma SmallLimitIsExceeded()
    ensures ByteCount(BoundedRedacted([OPEN_BRACKET], 1)) == 10
  {
    var s: Str := [OPEN_BRACKET];
    assert Width(s) == 1 && s[1..] == [] && s[..1] == s;
    assert Bounded([], 0) == [] && Bounded(s, 1) == s + [];
    assert LastIndexOf(s, OPEN_BRACKET) == 0 && s[0..] == s && s <= MARKER;
    assert EndsInCutMarker(s);
    assert [] + MARKER == MARKER;
    MarkerBytes();
  }
}
