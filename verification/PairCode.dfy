/**
 A pairing request as one line a person can carry: six short fields as JSON, that as UTF-8, that as base64url, after a
 version tag. Reading undoes writing exactly when no field is empty, however the line was wrapped on its way.
 */
module PairCode {
  import opened Wrappers
  import opened Text
  import opened Json
  import opened JsonRoundTrip
  import opened Utf8
  import opened Base64Url

  datatype PairRequest =
    PairRequest(name: Str, platform: Str, version: Str, challenge: Str, state: Str, redirect: Str)

  const VERSION: Str := Ascii("LYK1.")

  /** The short names in the order the fields are listed. */
  const SHORT: seq<Str> := [Ascii("n"), Ascii("p"), Ascii("v"), Ascii("c"), Ascii("s"), Ascii("r")]

  function Fields(r: PairRequest): (f: seq<Str>)
    ensures |f| == 6
  {
    [r.name, r.platform, r.version, r.challenge, r.state, r.redirect]
  }

  predicate Complete(r: PairRequest) {
    forall i :: 0 <= i < 6 ==> Fields(r)[i] != []
  }

  // ---- writing ----

  /** Fields from the `i`th on, as members. */
  function MembersFrom(fields: seq<Str>, i: nat): Members
    requires |fields| == 6 && i <= 6
    decreases 6 - i
  {
    if i == 6 then NoMembers else Member(SHORT[i], String(fields[i]), MembersFrom(fields, i + 1))
  }

  function Compact(r: PairRequest): Value {
    Object(MembersFrom(Fields(r), 0))
  }

  /** The line printed for a request. */
  function Blob(r: PairRequest): Str {
    VERSION + UrlText(Encode(Print(Compact(r))))
  }

  method EncodeRequest(r: PairRequest) returns (blob: Str)
    ensures blob == Blob(r)
  {
    var compact, i := NoMembers, 0;
    CompactIsValue(r);
    while i < 6
      invariant 0 <= i <= 6
      invariant PutAll(compact, MembersFrom(Fields(r), i)) == MembersFrom(Fields(r), 0)
    {
      compact := Put(compact, SHORT[i], String(Fields(r)[i]));
      i := i + 1;
    }
    var text := ToBase64Url(Print(Object(compact)));
    blob := VERSION + text;
  }

  // ---- reading ----

  /** `.replace(/\s+/g, "")` */
  function Squeeze(s: Str): Str {
    if s == [] then [] else if IsSpace(s[0]) then Squeeze(s[1..]) else [s[0]] + Squeeze(s[1..])
  }

  /** What stands under a short name, when that is a text and not an empty one. */
  function Field(compact: Members, short: Str): Option<Str> {
    match Get(compact, short)
    case Some(String(text)) => if text == [] then None else Some(text)
    case _ => None
  }

  function RequestIn(compact: Members): Option<PairRequest> {
    if forall i :: 0 <= i < 6 ==> Field(compact, SHORT[i]).Some? then
      Some(PairRequest(Field(compact, SHORT[0]).value, Field(compact, SHORT[1]).value,
                       Field(compact, SHORT[2]).value, Field(compact, SHORT[3]).value,
                       Field(compact, SHORT[4]).value, Field(compact, SHORT[5]).value))
    else None
  }

  /** The object a blob carries, or nothing for anything that is not one. */
  function Unpack(cleaned: Str): Option<Members> {
    if !(VERSION <= cleaned) then None
    else
      var json := FromBase64Url(cleaned[|VERSION|..]);
      if json.None? then None
      else
        match Parse(json.value)
        case Some(Object(members)) => Some(members)
        case _ => None
  }

  /** The request inside a blob. */
  function Decoded(blob: Str): Option<PairRequest> {
    var compact := Unpack(Squeeze(blob));
    if compact.None? then None else RequestIn(compact.value)
  }

  method DecodeRequest(blob: Str) returns (r: Option<PairRequest>)
    ensures r == Decoded(blob)
  {
    var compact := Unpack(Squeeze(blob));
    if compact.None? {
      return None;
    }
    var fields, i := [], 0;
    while i < 6
      invariant 0 <= i <= 6 && |fields| == i
      invariant forall j :: 0 <= j < i ==> Field(compact.value, SHORT[j]) == Some(fields[j])
    {
      var value := Field(compact.value, SHORT[i]);
      if value.None? {
        return None;
      }
      fields := fields + [value.value];
      i := i + 1;
    }
    return Some(PairRequest(fields[0], fields[1], fields[2], fields[3], fields[4], fields[5]));
  }

  // ---- the object inside ----

  lemma ShortNames(i: nat, j: nat)
    requires i < 6 && j < 6
    ensures SHORT[i] == SHORT[j] <==> i == j
    ensures !IsIndex(SHORT[i])
  {
    assert SHORT[0][0] == 0x6E && SHORT[1][0] == 0x70 && SHORT[2][0] == 0x76;
    assert SHORT[3][0] == 0x63 && SHORT[4][0] == 0x73 && SHORT[5][0] == 0x72;
    assert SHORT[i][0] == SHORT[j][0] <==> i == j;
  }

  lemma {:induction false} LaterNames(fields: seq<Str>, i: nat, j: nat)
    requires |fields| == 6 && i < j <= 6
    ensures !HasKey(MembersFrom(fields, j), SHORT[i]) && NoneGoesBefore(MembersFrom(fields, j), SHORT[i])
    decreases 6 - j
  {
    if j < 6 {
      LaterNames(fields, i, j + 1);
      ShortNames(i, j);
      ShortNames(j, i);
    }
  }

  lemma {:induction false} MembersFromIsValue(fields: seq<Str>, i: nat)
    requires |fields| == 6 && i <= 6
    ensures IsValue(Object(MembersFrom(fields, i)))
    decreases 6 - i
  {
    if i < 6 {
      MembersFromIsValue(fields, i + 1);
      LaterNames(fields, i, i + 1);
    }
  }

  lemma CompactIsValue(r: PairRequest)
    ensures IsValue(Compact(r))
    ensures PutAll(NoMembers, MembersFrom(Fields(r), 0)) == MembersFrom(Fields(r), 0)
  {
    MembersFromIsValue(Fields(r), 0);
    PutAllInOrder(MembersFrom(Fields(r), 0));
  }

  /** `k` fields into the list, each later field stands under its own name. */
  lemma {:induction false} GetFrom(fields: seq<Str>, k: nat, i: nat)
    requires |fields| == 6 && k <= i < 6
    ensures Get(MembersFrom(fields, k), SHORT[i]) == Some(String(fields[i]))
    decreases i - k
  {
    if k < i {
      ShortNames(k, i);
      GetFrom(fields, k + 1, i);
    }
  }

  lemma RequestComesBack(r: PairRequest)
    ensures RequestIn(Compact(r).members) == if Complete(r) then Some(r) else None
  {
    var members := Compact(r).members;
    forall i | 0 <= i < 6
      ensures Field(members, SHORT[i]) == if Fields(r)[i] == [] then None else Some(Fields(r)[i])
    {
      GetFrom(Fields(r), 0, i);
    }
  }

  lemma FoundIsComplete(compact: Members, r: PairRequest)
    requires RequestIn(compact) == Some(r)
    ensures Complete(r)
  {
    forall i | 0 <= i < 6 ensures Fields(r)[i] != [] {
      assert Field(compact, SHORT[i]) == Some(Fields(r)[i]);
    }
  }

  // ---- white space ----

  lemma SqueezeInFront(c: Unit, s: Str)
    ensures Squeeze([c] + s) == (if IsSpace(c) then [] else [c]) + Squeeze(s)
  {
    assert ([c] + s)[1..] == s;
  }

  lemma {:induction false} SqueezeConcat(a: Str, b: Str)
    ensures Squeeze(a + b) == Squeeze(a) + Squeeze(b)
  {
    if a == [] {
      assert a + b == b;
    } else {
      SqueezeConcat(a[1..], b);
      SqueezeInFront(a[0], a[1..] + b);
      SqueezeInFront(a[0], a[1..]);
      assert [a[0]] + a[1..] == a && [a[0]] + (a[1..] + b) == a + b;
    }
  }

  lemma {:induction false} SqueezedAway(s: Str)
    requires forall i :: 0 <= i < |s| ==> IsSpace(s[i])
    ensures Squeeze(s) == []
  {
    if s != [] {
      SqueezedAway(s[1..]);
    }
  }

  lemma {:induction false} SqueezedAlready(s: Str)
    requires forall i :: 0 <= i < |s| ==> !IsSpace(s[i])
    ensures Squeeze(s) == s
  {
    if s != [] {
      SqueezedAlready(s[1..]);
    }
  }

  lemma BlobHasNoSpace(r: PairRequest)
    ensures Squeeze(Blob(r)) == Blob(r)
  {
    var b := Encode(Print(Compact(r)));
    UrlTextIsSymbols(b);
    var d := Sextets(b);
    forall i | 0 <= i < |UrlSymbols(d)| ensures !IsSpace(UrlSymbols(d)[i]) {
      assert IsUrlSymbol(UrlSymbol(d[i]));
    }
    SqueezedAlready(Blob(r));
  }

  // ---- main results ----

  lemma JsonComesBack(r: PairRequest)
    ensures var json := Print(Compact(r)); FromBase64Url(UrlText(Encode(json))) == Some(json)
  {
    CompactIsValue(r);
    PrintIsWellFormed(Compact(r));
    Base64Url.TextComesBack(Print(Compact(r)));
  }

  lemma UnpackUndoesBlob(r: PairRequest)
    ensures Unpack(Blob(r)) == Some(Compact(r).members)
  {
    JsonComesBack(r);
    CompactIsValue(r);
    ParseUndoesPrint(Compact(r));
    assert Blob(r)[|VERSION|..] == UrlText(Encode(Print(Compact(r))));
  }

  /** The request comes back when no field is empty, and nothing does when one is. */
  lemma RequestComesBackIffComplete(r: PairRequest)
    ensures Decoded(Blob(r)) == if Complete(r) then Some(r) else None
    ensures Decoded(Blob(r)) == Some(r) <==> Complete(r)
  {
    BlobHasNoSpace(r);
    UnpackUndoesBlob(r);
    RequestComesBack(r);
  }

  /** Any line that is the blob once its white space is gone carries the same request. */
  lemma WrappedLineReadsAlike(r: PairRequest, line: Str)
    requires Squeeze(line) == Blob(r)
    ensures Decoded(line) == if Complete(r) then Some(r) else None
  {
    BlobHasNoSpace(r);
    RequestComesBackIffComplete(r);
  }

  /** White space put in anywhere, on top of any that is there already, changes nothing. */
  lemma SpaceChangesNothing(before: Str, space: Str, after: Str)
    requires forall i :: 0 <= i < |space| ==> IsSpace(space[i])
    ensures Squeeze(before + space + after) == Squeeze(before + after)
    ensures Decoded(before + space + after) == Decoded(before + after)
  {
    SqueezeConcat(before + space, after);
    SqueezeConcat(before, space);
    SqueezeConcat(before, after);
    SqueezedAway(space);
  }

  /** Whatever line is accepted, the request in it has every field, and writing that request anew is accepted as it. */
  lemma AcceptedRequestIsComplete(line: Str)
    requires Decoded(line).Some?
    ensures Complete(Decoded(line).value)
    ensures Decoded(Blob(Decoded(line).value)) == Decoded(line)
  {
    var r := Decoded(line).value;
    FoundIsComplete(Unpack(Squeeze(line)).value, r);
    RequestComesBackIffComplete(r);
  }
}
