/** Whole JSON texts (sections 3 to 5 of RFC 8259): what is read is exactly a value as the grammar lets it be written. */
module JsonTexts {
  import opened Wrappers
  import opened Text
  import opened Json
  import opened JsonRoundTrip
  import opened JsonGrammar

  /** A value as it is written, white space and all. */
  datatype Doc =
    | AWord(v: Value)
    | ANumber(parts: Parts)
    | AText(pieces: seq<Piece>)
    | NoArray(space: Str)
    | AnArray(elements: Elements)
    | NoObject(space: Str)
    | AnObject(entries: Entries)

  datatype Element = Element(before: Str, doc: Doc, after: Str)

  datatype Elements = Last(e: Element) | More(e: Element, rest: Elements)

  datatype Entry = Entry(before: Str, name: seq<Piece>, gap: Str, e: Element)

  datatype Entries = LastEntry(n: Entry) | MoreEntries(n: Entry, rest: Entries)

  predicate IsDoc(d: Doc) {
    match d
    case AWord(v) => v.Null? || v.Bool?
    case ANumber(parts) => AreParts(parts)
    case AText(pieces) => ArePieces(pieces)
    case NoArray(space) => White(space)
    case AnArray(elements) => AreElements(elements)
    case NoObject(space) => White(space)
    case AnObject(entries) => AreEntries(entries)
  }

  predicate AreElements(es: Elements) {
    Spaced(es.e) && IsDoc(es.e.doc) && (es.More? ==> AreElements(es.rest))
  }

  predicate AreEntries(ns: Entries) {
    Named(ns.n) && IsDoc(ns.n.e.doc) && (ns.MoreEntries? ==> AreEntries(ns.rest))
  }

  predicate Spaced(e: Element) {
    White(e.before) && White(e.after)
  }

  predicate Named(n: Entry) {
    White(n.before) && ArePieces(n.name) && White(n.gap) && Spaced(n.e)
  }

  // ---- how it is written ----

  function WordText(v: Value): Str {
    if v.Null? then Ascii("null") else if v == Bool(true) then Ascii("true") else Ascii("false")
  }

  function StringText(pieces: seq<Piece>): Str {
    [QUOTE] + PiecesText(pieces) + [QUOTE]
  }

  function DocText(d: Doc): Str {
    match d
    case AWord(v) => WordText(v)
    case ANumber(parts) => PartsText(parts)
    case AText(pieces) => StringText(pieces)
    case NoArray(space) => [OPEN_BRACKET] + space + [CLOSE_BRACKET]
    case AnArray(elements) => [OPEN_BRACKET] + ElementsText(elements) + [CLOSE_BRACKET]
    case NoObject(space) => [OPEN_BRACE] + space + [CLOSE_BRACE]
    case AnObject(entries) => [OPEN_BRACE] + EntriesText(entries) + [CLOSE_BRACE]
  }

  function ElementText(e: Element): Str {
    e.before + DocText(e.doc) + e.after
  }

  function ElementsText(es: Elements): Str {
    match es
    case Last(e) => ElementText(e)
    case More(e, rest) => ElementText(e) + [COMMA] + ElementsText(rest)
  }

  function EntryText(n: Entry): Str {
    n.before + StringText(n.name) + n.gap + [COLON] + ElementText(n.e)
  }

  function EntriesText(ns: Entries): Str {
    match ns
    case LastEntry(n) => EntryText(n)
    case MoreEntries(n, rest) => EntryText(n) + [COMMA] + EntriesText(rest)
  }

  // ---- what it says ----

  function Said(d: Doc): Value
    requires IsDoc(d)
  {
    match d
    case AWord(v) => v
    case ANumber(parts) => Number(PartsText(parts))
    case AText(pieces) => String(Spelled(pieces))
    case NoArray(_) => Array(NoItems)
    case AnArray(elements) => Array(SaidItems(elements))
    case NoObject(_) => Object(NoMembers)
    case AnObject(entries) => Object(PutAll(NoMembers, SaidMembers(entries)))
  }

  function SaidItems(es: Elements): Items
    requires AreElements(es)
  {
    Item(Said(es.e.doc), if es.More? then SaidItems(es.rest) else NoItems)
  }

  function SaidMembers(ns: Entries): Members
    requires AreEntries(ns)
  {
    Member(Spelled(ns.n.name), Said(ns.n.e.doc), if ns.MoreEntries? then SaidMembers(ns.rest) else NoMembers)
  }

  // ---- where parsing skips ----

  lemma {:induction false} SkippedOnce(s: Str)
    ensures SkipSpace(SkipSpace(s)) == SkipSpace(s)
    decreases |s|
  {
    if SkipSpace(s) != s {
      SkippedOnce(s[1..]);
    }
  }

  lemma SameValue(s: Str, t: Str)
    requires SkipSpace(s) == SkipSpace(t)
    ensures ParseValue(s).Got? <==> ParseValue(t).Got?
    ensures ParseValue(s) == ParseValue(t)
  {
  }

  lemma SameItems(s: Str, t: Str)
    requires SkipSpace(s) == SkipSpace(t)
    ensures ParseItems(s) == ParseItems(t)
  {
    SameValue(s, t);
  }

  lemma SameMembers(s: Str, t: Str)
    requires SkipSpace(s) == SkipSpace(t)
    ensures ParseKey(s) == ParseKey(t) && ParseMembers(s) == ParseMembers(t)
  {
  }

  predicate Solid(s: Str) {
    s != [] && !White([s[0]])
  }

  lemma SolidStays(s: Str, more: Str)
    requires Solid(s)
    ensures SkipSpace(s + more) == s + more && Solid(s + more)
  {
    var c := s[0];
    assert !White([c]);
    assert (s + more)[0] == c;
  }

  lemma SkipsTo(white: Str, s: Str)
    requires White(white) && Solid(s)
    ensures SkipSpace(white + s) == s
  {
    WhiteIsSkipped(white, s);
    SolidStays(s, []);
    assert s + [] == s;
  }

  lemma DocStarts(d: Doc)
    requires IsDoc(d)
    ensures Solid(DocText(d)) && DocText(d)[0] != CLOSE_BRACKET && DocText(d)[0] != CLOSE_BRACE
  {
    var s := DocText(d);
    if d.AWord? {
      assert s[0] == 0x6E || s[0] == 0x74 || s[0] == 0x66;
    } else if d.ANumber? {
      assert IsDigit(s[0]) || s[0] == 0x2D;
    }
    assert [s[0]][0] == s[0];
  }

  lemma WhiteIsDelimiting(white: Str, c: Unit, rest: Str)
    requires White(white) && !IsNumeralUnit(c)
    ensures Delimited(white + [c] + rest)
  {
    var s := white + [c] + rest;
    assert s[0] == if white == [] then c else white[0];
  }

  // ---- what is written is read ----

  lemma ElementRegroups(e: Element, end: Str)
    ensures ElementText(e) + end == e.before + (DocText(e.doc) + (e.after + end))
  {
  }

  /** An element up to the mark behind it, once its value is known to be read. */
  lemma ElementIsRead(e: Element, v: Value, c: Unit, rest: Str)
    requires Spaced(e) && IsDoc(e.doc) && Solid([c])
    requires ParseValue(DocText(e.doc) + (e.after + ([c] + rest))) == Got(v, e.after + ([c] + rest))
    ensures var s := ElementText(e) + ([c] + rest);
            && ParseValue(s) == Got(v, e.after + ([c] + rest)) && SkipSpace(e.after + ([c] + rest)) == [c] + rest
            && Solid(SkipSpace(s)) && SkipSpace(s)[0] == DocText(e.doc)[0]
  {
    var tail := e.after + ([c] + rest);
    var s := ElementText(e) + ([c] + rest);
    DocStarts(e.doc);
    SolidStays(DocText(e.doc), tail);
    ElementRegroups(e, [c] + rest);
    SkipsTo(e.before, DocText(e.doc) + tail);
    SameValue(s, DocText(e.doc) + tail);
    SolidStays([c], rest);
    SkipsTo(e.after, [c] + rest);
  }

  lemma AfterIsDelimiting(e: Element, c: Unit, rest: Str)
    requires Spaced(e) && !IsNumeralUnit(c)
    ensures Delimited(e.after + ([c] + rest))
  {
    WhiteIsDelimiting(e.after, c, rest);
    assert e.after + ([c] + rest) == e.after + [c] + rest;
  }

  lemma {:induction false} DocIsRead(d: Doc, rest: Str)
    requires IsDoc(d) && Delimited(rest)
    ensures ParseValue(DocText(d) + rest) == Got(Said(d), rest)
    decreases d
  {
    match d
    case AWord(v) =>
      WordsComeBack(v, rest);
      assert DocText(d) == Print(v);
    case ANumber(parts) =>
      PartsAreNumeral(parts);
      NumberComesBack(PartsText(parts), rest);
    case AText(pieces) =>
      TextIsRead(pieces, rest);
    case NoArray(space) =>
      EmptyArrayIsRead(space, rest);
    case AnArray(elements) =>
      ElementsAreRead(elements, rest);
      ArrayIsRead(elements, rest);
    case NoObject(space) =>
      EmptyObjectIsRead(space, rest);
    case AnObject(entries) =>
      EntriesAreRead(entries, rest);
      ObjectIsRead(entries, rest);
  }

  lemma BracesRegroup(open: Unit, inner: Str, close: Unit, rest: Str)
    ensures ([open] + inner + [close] + rest)[0] == open
    ensures ([open] + inner + [close] + rest)[1..] == inner + ([close] + rest)
  {
  }

  lemma QuotedIsRead(s: Str, inner: Str, text: Str, rest: Str)
    requires s != [] && s[0] == QUOTE && s[1..] == inner && ParseString(inner) == Got(text, rest)
    ensures ParseValue(s) == Got(String(text), rest)
  {
  }

  lemma QuotesRegroup(inner: Str, rest: Str)
    ensures var s := [QUOTE] + inner + [QUOTE] + rest; s[0] == QUOTE && s[1..] == inner + [QUOTE] + rest
  {
  }

  lemma TextIsRead(pieces: seq<Piece>, rest: Str)
    requires ArePieces(pieces)
    ensures ParseValue(StringText(pieces) + rest) == Got(String(Spelled(pieces)), rest)
  {
    PiecesAreRead(pieces, rest);
    QuotesRegroup(PiecesText(pieces), rest);
    QuotedIsRead(StringText(pieces) + rest, PiecesText(pieces) + [QUOTE] + rest, Spelled(pieces), rest);
  }

  lemma EmptyArrayIsRead(space: Str, rest: Str)
    requires White(space)
    ensures ParseValue([OPEN_BRACKET] + space + [CLOSE_BRACKET] + rest) == Got(Array(NoItems), rest)
  {
    var s := [OPEN_BRACKET] + space + [CLOSE_BRACKET] + rest;
    var end := [CLOSE_BRACKET] + rest;
    assert s[1..] == space + end && end[1..] == rest;
    SolidStays([CLOSE_BRACKET], rest);
    SkipsTo(space, end);
  }

  lemma EmptyObjectIsRead(space: Str, rest: Str)
    requires White(space)
    ensures ParseValue([OPEN_BRACE] + space + [CLOSE_BRACE] + rest) == Got(Object(NoMembers), rest)
  {
    var s := [OPEN_BRACE] + space + [CLOSE_BRACE] + rest;
    var end := [CLOSE_BRACE] + rest;
    assert s[1..] == space + end && end[1..] == rest;
    SolidStays([CLOSE_BRACE], rest);
    SkipsTo(space, end);
  }

  /** The rest of an array or an object, from its first element on. */
  predicate StartsSolidly(s: Str, close: Unit) {
    Solid(SkipSpace(s)) && SkipSpace(s)[0] != close
  }

  lemma ArrayIsRead(es: Elements, rest: Str)
    requires AreElements(es)
    requires var inner := ElementsText(es) + ([CLOSE_BRACKET] + rest);
             ParseItems(inner) == Got(SaidItems(es), rest) && StartsSolidly(inner, CLOSE_BRACKET)
    ensures ParseValue(DocText(AnArray(es)) + rest) == Got(Said(AnArray(es)), rest)
  {
    var inner := ElementsText(es) + ([CLOSE_BRACKET] + rest);
    BracesRegroup(OPEN_BRACKET, ElementsText(es), CLOSE_BRACKET, rest);
    SkippedOnce(inner);
    SameItems(inner, SkipSpace(inner));
  }

  lemma LastIsRead(s: Str, v: Value, after: Str, rest: Str)
    requires ParseValue(s) == Got(v, after) && SkipSpace(after) == [CLOSE_BRACKET] + rest
    ensures ParseItems(s) == Got(Item(v, NoItems), rest)
  {
    assert ([CLOSE_BRACKET] + rest)[1..] == rest;
  }

  lemma NextIsRead(s: Str, v: Value, after: Str, tail: Str, more: Items, rest: Str)
    requires ParseValue(s) == Got(v, after) && SkipSpace(after) == [COMMA] + tail && ParseItems(tail) == Got(more, rest)
    ensures ParseItems(s) == Got(Item(v, more), rest)
  {
    assert ([COMMA] + tail)[1..] == tail;
  }

  lemma NextElements(e: Element, more: Elements, end: Str)
    ensures ElementsText(More(e, more)) + end == ElementText(e) + ([COMMA] + (ElementsText(more) + end))
  {
  }

  lemma {:induction false} ElementsAreRead(es: Elements, rest: Str)
    requires AreElements(es)
    ensures var inner := ElementsText(es) + ([CLOSE_BRACKET] + rest);
            ParseItems(inner) == Got(SaidItems(es), rest) && StartsSolidly(inner, CLOSE_BRACKET)
    decreases es
  {
    var e, end := es.e, [CLOSE_BRACKET] + rest;
    DocStarts(e.doc);
    match es
    case Last(_) =>
      AfterIsDelimiting(e, CLOSE_BRACKET, rest);
      DocIsRead(e.doc, e.after + end);
      ElementIsRead(e, Said(e.doc), CLOSE_BRACKET, rest);
      LastIsRead(ElementText(e) + end, Said(e.doc), e.after + end, rest);
    case More(_, more) =>
      var tail := ElementsText(more) + end;
      ElementsAreRead(more, rest);
      AfterIsDelimiting(e, COMMA, tail);
      DocIsRead(e.doc, e.after + ([COMMA] + tail));
      ElementIsRead(e, Said(e.doc), COMMA, tail);
      NextElements(e, more, end);
      NextIsRead(ElementText(e) + ([COMMA] + tail), Said(e.doc), e.after + ([COMMA] + tail), tail, SaidItems(more), rest);
  }

  lemma NameRegroups(n: Entry, tail: Str)
    ensures n.before + StringText(n.name) + n.gap + [COLON] + tail
         == n.before + ([QUOTE] + (PiecesText(n.name) + [QUOTE] + (n.gap + ([COLON] + tail))))
  {
  }

  lemma NameIsRead(n: Entry, tail: Str)
    requires Named(n)
    ensures var s := n.before + StringText(n.name) + n.gap + [COLON] + tail;
            ParseKey(s) == Got(Spelled(n.name), tail) && Solid(SkipSpace(s)) && SkipSpace(s)[0] == QUOTE
  {
    var colon := [COLON] + tail;
    var quoted := PiecesText(n.name) + [QUOTE] + (n.gap + colon);
    NameRegroups(n, tail);
    SolidStays([QUOTE], quoted);
    SkipsTo(n.before, [QUOTE] + quoted);
    assert ([QUOTE] + quoted)[1..] == quoted;
    PiecesAreRead(n.name, n.gap + colon);
    SolidStays([COLON], tail);
    SkipsTo(n.gap, colon);
    assert colon[1..] == tail;
  }

  lemma ObjectIsRead(ns: Entries, rest: Str)
    requires AreEntries(ns)
    requires var inner := EntriesText(ns) + ([CLOSE_BRACE] + rest);
             ParseMembers(inner) == Got(SaidMembers(ns), rest) && StartsSolidly(inner, CLOSE_BRACE)
    ensures ParseValue(DocText(AnObject(ns)) + rest) == Got(Said(AnObject(ns)), rest)
  {
    var inner := EntriesText(ns) + ([CLOSE_BRACE] + rest);
    BracesRegroup(OPEN_BRACE, EntriesText(ns), CLOSE_BRACE, rest);
    SkippedOnce(inner);
    SameMembers(inner, SkipSpace(inner));
  }

  lemma EntryRegroups(n: Entry, tail: Str)
    ensures EntryText(n) + tail == n.before + StringText(n.name) + n.gap + [COLON] + (ElementText(n.e) + tail)
  {
  }

  lemma LastNamedIsRead(s: Str, key: Str, colon: Str, v: Value, after: Str, rest: Str)
    requires ParseKey(s) == Got(key, colon) && ParseValue(colon) == Got(v, after)
    requires SkipSpace(after) == [CLOSE_BRACE] + rest
    ensures ParseMembers(s) == Got(Member(key, v, NoMembers), rest)
  {
    assert ([CLOSE_BRACE] + rest)[1..] == rest;
  }

  lemma NextNamedIsRead(s: Str, key: Str, colon: Str, v: Value, after: Str, tail: Str, more: Members, rest: Str)
    requires ParseKey(s) == Got(key, colon) && ParseValue(colon) == Got(v, after)
    requires SkipSpace(after) == [COMMA] + tail && ParseMembers(tail) == Got(more, rest)
    ensures ParseMembers(s) == Got(Member(key, v, more), rest)
  {
    assert ([COMMA] + tail)[1..] == tail;
  }

  lemma NextEntries(n: Entry, more: Entries, end: Str)
    ensures EntriesText(MoreEntries(n, more)) + end == EntryText(n) + ([COMMA] + (EntriesText(more) + end))
  {
  }

  lemma {:induction false} EntriesAreRead(ns: Entries, rest: Str)
    requires AreEntries(ns)
    ensures var inner := EntriesText(ns) + ([CLOSE_BRACE] + rest);
            ParseMembers(inner) == Got(SaidMembers(ns), rest) && StartsSolidly(inner, CLOSE_BRACE)
    decreases ns
  {
    var n, e, end := ns.n, ns.n.e, [CLOSE_BRACE] + rest;
    match ns
    case LastEntry(_) =>
      AfterIsDelimiting(e, CLOSE_BRACE, rest);
      DocIsRead(e.doc, e.after + end);
      ElementIsRead(e, Said(e.doc), CLOSE_BRACE, rest);
      EntryRegroups(n, end);
      NameIsRead(n, ElementText(e) + end);
      LastNamedIsRead(EntryText(n) + end, Spelled(n.name), ElementText(e) + end, Said(e.doc), e.after + end, rest);
    case MoreEntries(_, more) =>
      var tail := EntriesText(more) + end;
      EntriesAreRead(more, rest);
      AfterIsDelimiting(e, COMMA, tail);
      DocIsRead(e.doc, e.after + ([COMMA] + tail));
      ElementIsRead(e, Said(e.doc), COMMA, tail);
      EntryRegroups(n, [COMMA] + tail);
      NameIsRead(n, ElementText(e) + ([COMMA] + tail));
      NextEntries(n, more, end);
      NextNamedIsRead(EntryText(n) + ([COMMA] + tail), Spelled(n.name), ElementText(e) + ([COMMA] + tail), Said(e.doc),
                      e.after + ([COMMA] + tail), tail, SaidMembers(more), rest);
  }

  // ---- and nothing else is ----

  /** White space in front of the first element is that element's. */
  function Widened(white: Str, es: Elements): Elements {
    var e := es.e.(before := white + es.e.before);
    if es.Last? then Last(e) else More(e, es.rest)
  }

  lemma WidenedElements(white: Str, es: Elements)
    requires White(white) && AreElements(es)
    ensures AreElements(Widened(white, es)) && SaidItems(Widened(white, es)) == SaidItems(es)
    ensures ElementsText(Widened(white, es)) == white + ElementsText(es)
  {
    var e := es.e;
    assert (white + e.before) + DocText(e.doc) + e.after == white + ElementText(e);
    if es.More? {
      assert white + ElementText(e) + [COMMA] + ElementsText(es.rest)
          == white + (ElementText(e) + [COMMA] + ElementsText(es.rest));
    }
  }

  function WidenedNames(white: Str, ns: Entries): Entries {
    var n := ns.n.(before := white + ns.n.before);
    if ns.LastEntry? then LastEntry(n) else MoreEntries(n, ns.rest)
  }

  lemma WidenedEntry(white: Str, n: Entry)
    ensures EntryText(n.(before := white + n.before)) == white + EntryText(n)
  {
  }

  lemma WidenedEntries(white: Str, ns: Entries)
    requires White(white) && AreEntries(ns)
    ensures AreEntries(WidenedNames(white, ns)) && SaidMembers(WidenedNames(white, ns)) == SaidMembers(ns)
    ensures EntriesText(WidenedNames(white, ns)) == white + EntriesText(ns)
  {
    WidenedEntry(white, ns.n);
    if ns.MoreEntries? {
      assert white + EntryText(ns.n) + [COMMA] + EntriesText(ns.rest)
          == white + (EntryText(ns.n) + [COMMA] + EntriesText(ns.rest));
    }
  }

  lemma {:induction false} ReadIsWritten(text: Str) returns (white: Str, d: Doc)
    requires ParseValue(text).Got?
    ensures White(white) && IsDoc(d) && Said(d) == ParseValue(text).value
    ensures text == white + (DocText(d) + ParseValue(text).rest)
    decreases |text|, 1
  {
    white := SkippedIsWhite(text);
    var s, v := SkipSpace(text), ParseValue(text);
    if s[0] == QUOTE {
      var pieces := ReadIsPieces(s[1..]);
      d := AText(pieces);
      TextAgain(s, pieces, v.rest);
    } else if s[0] == OPEN_BRACKET {
      var space := SkippedIsWhite(s[1..]);
      var inner := SkipSpace(s[1..]);
      if inner[0] == CLOSE_BRACKET {
        d := NoArray(space);
        BracketsAgain(s, space, inner);
      } else {
        var es := ItemsAreWritten(inner);
        d := AnArray(Widened(space, es));
        WidenedElements(space, es);
        BracedAgain(s, space, ElementsText(es), CLOSE_BRACKET, v.rest, inner);
      }
    } else if s[0] == OPEN_BRACE {
      var space := SkippedIsWhite(s[1..]);
      var inner := SkipSpace(s[1..]);
      if inner[0] == CLOSE_BRACE {
        d := NoObject(space);
        BracketsAgain(s, space, inner);
      } else {
        var ns := MembersAreWritten(inner);
        d := AnObject(WidenedNames(space, ns));
        WidenedEntries(space, ns);
        BracedAgain(s, space, EntriesText(ns), CLOSE_BRACE, v.rest, inner);
      }
    } else {
      d := ScalarIsWritten(s);
      assert ParseValue(s) == v by {
        SkippedOnce(text);
        SameValue(s, text);
      }
    }
  }

  lemma TextAgain(s: Str, pieces: seq<Piece>, rest: Str)
    requires s != [] && s[0] == QUOTE && s[1..] == PiecesText(pieces) + [QUOTE] + rest
    ensures s == StringText(pieces) + rest
  {
    assert s == [QUOTE] + s[1..];
  }

  lemma BracketsAgain(s: Str, space: Str, inner: Str)
    requires s != [] && inner != [] && s[1..] == space + inner
    ensures s == [s[0]] + space + [inner[0]] + inner[1..]
  {
    assert inner == [inner[0]] + inner[1..] && s == [s[0]] + s[1..];
  }

  lemma BracedAgain(s: Str, space: Str, text: Str, close: Unit, rest: Str, inner: Str)
    requires s != [] && s[1..] == space + inner && inner == text + ([close] + rest)
    ensures s == [s[0]] + (space + text) + [close] + rest
  {
    assert s == [s[0]] + s[1..];
    assert space + (text + ([close] + rest)) == space + text + [close] + rest;
  }

  lemma ScalarIsWritten(s: Str) returns (d: Doc)
    requires SkipSpace(s) == s && ParseValue(s).Got? && s[0] != QUOTE && s[0] != OPEN_BRACKET && s[0] != OPEN_BRACE
    ensures IsDoc(d) && Said(d) == ParseValue(s).value && s == DocText(d) + ParseValue(s).rest
  {
    if s[0] == 0x6E {
      d := AWord(Null);
    } else if s[0] == 0x74 {
      d := AWord(Bool(true));
    } else if s[0] == 0x66 {
      d := AWord(Bool(false));
    } else {
      var n := NumeralRun(s);
      var parts := NumeralIsParts(s[..n]);
      d := ANumber(parts);
      assert s == s[..n] + s[n..];
    }
  }

  lemma ElementAgain(s: Str, e: Element, mark: Str, v: Str)
    requires s == e.before + (DocText(e.doc) + v) && v == e.after + mark
    ensures s == ElementText(e) + mark
  {
    ElementRegroups(e, mark);
  }

  lemma {:induction false} ItemsAreWritten(s: Str) returns (es: Elements)
    requires ParseItems(s).Got?
    ensures AreElements(es) && SaidItems(es) == ParseItems(s).value
    ensures s == ElementsText(es) + ([CLOSE_BRACKET] + ParseItems(s).rest)
    decreases |s|, 2
  {
    var v := ParseValue(s);
    var before, d := ReadIsWritten(s);
    var after := SkippedIsWhite(v.rest);
    var mark := SkipSpace(v.rest);
    var e := Element(before, d, after);
    ElementAgain(s, e, mark, v.rest);
    assert mark == [mark[0]] + mark[1..];
    if mark[0] == CLOSE_BRACKET {
      es := Last(e);
    } else {
      var more := ItemsAreWritten(mark[1..]);
      es := More(e, more);
      NextElements(e, more, [CLOSE_BRACKET] + ParseItems(s).rest);
    }
  }

  lemma QuotedIsWritten(s: Str) returns (name: seq<Piece>, tail: Str)
    requires s != [] && s[0] == QUOTE && ParseString(s[1..]).Got?
    ensures ArePieces(name) && ParseString(s[1..]) == Got(Spelled(name), tail) && s == StringText(name) + tail
  {
    name := ReadIsPieces(s[1..]);
    tail := ParseString(s[1..]).rest;
    TextAgain(s, name, tail);
  }

  lemma {:induction false} NameIsWritten(s: Str) returns (before: Str, name: seq<Piece>, gap: Str)
    requires ParseKey(s).Got?
    ensures White(before) && ArePieces(name) && White(gap) && Spelled(name) == ParseKey(s).value
    ensures s == before + StringText(name) + gap + [COLON] + ParseKey(s).rest
  {
    before := SkippedIsWhite(s);
    var tail;
    name, tail := QuotedIsWritten(SkipSpace(s));
    gap := SkippedIsWhite(tail);
    var colon := SkipSpace(tail);
    assert colon == [COLON] + colon[1..];
    NameAgain(s, before, StringText(name), gap, colon[1..]);
  }

  lemma NameAgain(s: Str, before: Str, name: Str, gap: Str, rest: Str)
    requires s == before + (name + (gap + ([COLON] + rest)))
    ensures s == before + name + gap + [COLON] + rest
  {
  }

  lemma EntryAgain(s: Str, n: Entry, colon: Str, mark: Str)
    requires s == n.before + StringText(n.name) + n.gap + [COLON] + colon && colon == ElementText(n.e) + mark
    ensures s == EntryText(n) + mark
  {
    EntryRegroups(n, mark);
  }

  lemma {:induction false} MembersAreWritten(s: Str) returns (ns: Entries)
    requires ParseMembers(s).Got?
    ensures AreEntries(ns) && SaidMembers(ns) == ParseMembers(s).value
    ensures s == EntriesText(ns) + ([CLOSE_BRACE] + ParseMembers(s).rest)
    decreases |s|, 2
  {
    var colon := ParseKey(s).rest;
    var before, name, gap := NameIsWritten(s);
    var lead, d := ReadIsWritten(colon);
    var rest := ParseValue(colon).rest;
    var after := SkippedIsWhite(rest);
    var mark := SkipSpace(rest);
    var n := Entry(before, name, gap, Element(lead, d, after));
    ElementAgain(colon, n.e, mark, rest);
    EntryAgain(s, n, colon, mark);
    assert mark == [mark[0]] + mark[1..];
    if mark[0] == CLOSE_BRACE {
      ns := LastEntry(n);
    } else {
      var more := MembersAreWritten(mark[1..]);
      ns := MoreEntries(n, more);
      NextEntries(n, more, [CLOSE_BRACE] + ParseMembers(s).rest);
    }
  }

  // ---- the theorem ----

  /** The text is this value, written so, with white space around it. */
  predicate Writes(text: Str, before: Str, d: Doc, after: Str) {
    White(before) && IsDoc(d) && White(after) && text == before + (DocText(d) + after)
  }

  /** A text is read exactly when it is a value written as the grammar has it, and then as what is written. */
  lemma ReadIffWritten(text: Str, v: Value)
    ensures Parse(text) == Some(v) <==> exists before, d, after :: Writes(text, before, d, after) && Said(d) == v
  {
    if Parse(text) == Some(v) {
      var before, d := ReadIsWritten(text);
      var after := SkippedIsWhite(ParseValue(text).rest);
      assert Writes(text, before, d, ParseValue(text).rest) by {
        assert after + [] == after;
      }
    }
    forall before, d, after | Writes(text, before, d, after) && Said(d) == v ensures Parse(text) == Some(v) {
      WrittenIsRead(text, before, d, after);
    }
  }

  lemma WrittenIsRead(text: Str, before: Str, d: Doc, after: Str)
    requires Writes(text, before, d, after)
    ensures Parse(text) == Some(Said(d))
  {
    DocStarts(d);
    SolidStays(DocText(d), after);
    SkipsTo(before, DocText(d) + after);
    SameValue(text, DocText(d) + after);
    assert Delimited(after) by {
      if after != [] {
        assert after[0] == after[0];
      }
    }
    DocIsRead(d, after);
    WhiteIsSkipped(after, []);
    assert after + [] == after;
  }
}
