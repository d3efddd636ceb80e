/**
 The pairing line unit by unit, and what else is read as a request: any object with the six texts in it, in any order and
 beside whatever else, behind the tag and in the blob's own symbols.
 */
module PairLayout {
  import opened Wrappers
  import opened Text
  import opened Json
  import opened JsonRoundTrip
  import opened Utf8
  import opened Base64Url
  import opened PairCode

  /** A text as JSON writes it. */
  function Written(text: Str): Str {
    Print(String(text))
  }

  const LEADS: seq<Str> := [Ascii("{\"n\":"), Ascii(",\"p\":"), Ascii(",\"v\":"), Ascii(",\"c\":"), Ascii(",\"s\":"),
                            Ascii(",\"r\":")]

  /** The JSON a request is carried as, from field `i` on. */
  function CarriedFrom(fields: seq<Str>, i: nat): Str
    requires |fields| == 6 && i <= 6
    decreases 6 - i
  {
    if i == 6 then Ascii("}") else LEADS[i] + Written(fields[i]) + CarriedFrom(fields, i + 1)
  }

  lemma NameIsQuoted(i: nat)
    requires i < 6
    ensures |SHORT[i]| == 1 && Quote(SHORT[i]) == [QUOTE, SHORT[i][0], QUOTE]
  {
    var name := SHORT[i];
    assert name == [name[0]] && name[1..] == [] && Escape(name[1..]) == [];
    assert 0x61 <= name[0] <= 0x7A;
    assert Escape(name) == [name[0]] + [];
  }

  lemma LeadIs(i: nat)
    requires i < 6
    ensures |SHORT[i]| == 1
    ensures LEADS[i] == [if i == 0 then OPEN_BRACE else COMMA, QUOTE, SHORT[i][0], QUOTE, COLON]
  {
    assert |LEADS[i]| == 5;
  }

  function Front(i: nat): Str {
    if i == 0 then [OPEN_BRACE] else if i == 6 then [] else [COMMA]
  }

  lemma LeadInParts(i: nat)
    requires i < 6
    ensures LEADS[i] == Front(i) + Quote(SHORT[i]) + [COLON]
  {
    NameIsQuoted(i);
    LeadIs(i);
  }

  /** What the members print as, with what comes in front of them and behind. */
  function Enclosed(fields: seq<Str>, i: nat): Str
    requires |fields| == 6 && i <= 6
  {
    Front(i) + PrintMembers(MembersFrom(fields, i)) + [CLOSE_BRACE]
  }

  lemma MembersPrint(fields: seq<Str>, i: nat)
    requires |fields| == 6 && i < 6
    ensures PrintMembers(MembersFrom(fields, i))
         == Quote(SHORT[i]) + [COLON] + Written(fields[i])
            + Front(i + 1) + PrintMembers(MembersFrom(fields, i + 1))
  {
    if i == 5 {
      assert MembersFrom(fields, 6) == NoMembers;
    } else {
      assert MembersFrom(fields, i + 1).Member?;
    }
  }

  lemma Regrouped(front: Str, name: Str, text: Str, comma: Str, rest: Str, last: Str, lead: Str)
    requires lead == front + name + [COLON]
    ensures front + (name + [COLON] + text + comma + rest) + last == lead + text + (comma + rest + last)
  {
    assert front + (name + [COLON] + text + comma + rest) == lead + text + comma + rest;
    assert lead + text + comma + rest + last == lead + text + (comma + rest + last);
  }

  lemma EnclosedFurther(fields: seq<Str>, i: nat)
    requires |fields| == 6 && i < 6
    ensures Enclosed(fields, i) == LEADS[i] + Written(fields[i]) + Enclosed(fields, i + 1)
  {
    MembersPrint(fields, i);
    LeadInParts(i);
    Regrouped(Front(i), Quote(SHORT[i]), Written(fields[i]), Front(i + 1), PrintMembers(MembersFrom(fields, i + 1)),
              [CLOSE_BRACE], LEADS[i]);
  }

  lemma {:induction false} EnclosedIsCarried(fields: seq<Str>, i: nat)
    requires |fields| == 6 && i <= 6
    ensures Enclosed(fields, i) == CarriedFrom(fields, i)
    decreases 6 - i
  {
    if i == 6 {
      assert [] + [] + [CLOSE_BRACE] == Ascii("}");
    } else {
      EnclosedIsCarried(fields, i + 1);
      EnclosedFurther(fields, i);
    }
  }

  lemma CompactPrints(r: PairRequest, i: nat)
    requires i == 0
    ensures Print(Compact(r)) == CarriedFrom(Fields(r), i)
  {
    EnclosedIsCarried(Fields(r), i);
  }

  lemma BlobOf(r: PairRequest, json: Str)
    requires Print(Compact(r)) == json
    ensures Blob(r) == Ascii("LYK1.") + UrlSymbols(Sextets(Encode(json)))
  {
    UrlTextIsSymbols(Encode(json));
  }

  /** The line is the tag and, in the blob's symbols, the bytes of the six texts each behind its name. */
  lemma BlobIsLaidOut(r: PairRequest)
    ensures Blob(r) == Ascii("LYK1.") + UrlSymbols(Sextets(Encode(CarriedFrom(Fields(r), 0))))
  {
    CompactPrints(r, 0);
    BlobOf(r, CarriedFrom(Fields(r), 0));
  }

  // ---- what is read ----

  /** Nothing is read as a request that has not the tag, and behind it symbols only. */
  lemma OnlyTaggedLinesAreRead(line: Str)
    requires Decoded(line).Some?
    ensures var s := Squeeze(line);
            && Ascii("LYK1.") <= s && |s| > 5 && forall i :: 5 <= i < |s| ==> IsUrlSymbol(s[i])
  {
    var s := Squeeze(line);
    var rest := s[5..];
    assert rest != [];
    forall i | 5 <= i < |s| ensures IsUrlSymbol(s[i]) {
      assert s[i] == rest[i - 5];
    }
  }

  function Carrying(members: Members): Str {
    VERSION + UrlText(Encode(Print(Object(members))))
  }

  lemma CarryingHasNoSpace(members: Members)
    ensures Squeeze(Carrying(members)) == Carrying(members)
  {
    var b := Encode(Print(Object(members)));
    UrlTextIsSymbols(b);
    var d := Sextets(b);
    forall i | 0 <= i < |UrlSymbols(d)| ensures !IsSpace(UrlSymbols(d)[i]) {
      assert IsUrlSymbol(UrlSymbol(d[i]));
    }
    SqueezedAlready(Carrying(members));
  }

  lemma MembersComeBack(members: Members)
    requires IsValue(Object(members))
    ensures Unpack(Carrying(members)) == Some(members)
  {
    var json := Print(Object(members));
    PrintIsWellFormed(Object(members));
    assert json[0] == OPEN_BRACE;
    Base64Url.TextComesBack(json);
    ParseUndoesPrint(Object(members));
    assert Carrying(members)[|VERSION|..] == UrlText(Encode(json));
  }

  /** The object has this text, and not an empty one, under each of the six names. */
  predicate Tells(members: Members, r: PairRequest) {
    Complete(r) && forall i :: 0 <= i < 6 ==> Get(members, SHORT[i]) == Some(String(Fields(r)[i]))
  }

  lemma RequestInIff(members: Members, r: PairRequest)
    ensures RequestIn(members) == Some(r) <==> Tells(members, r)
  {
    assert forall i :: 0 <= i < 6 ==>
      (Field(members, SHORT[i]) == Some(Fields(r)[i]) <==>
         Get(members, SHORT[i]) == Some(String(Fields(r)[i])) && Fields(r)[i] != []);
    assert RequestIn(members) == Some(r) <==> forall i :: 0 <= i < 6 ==> Field(members, SHORT[i]) == Some(Fields(r)[i]);
  }

  /** Any object is read as a request exactly when it has its six texts: in whatever order, beside whatever else. */
  lemma ObjectReadsIff(members: Members, r: PairRequest)
    requires IsValue(Object(members))
    ensures Decoded(Carrying(members)) == Some(r) <==> Tells(members, r)
  {
    CarryingHasNoSpace(members);
    MembersComeBack(members);
    RequestInIff(members, r);
  }
}
