/**
 Reading the spool when nothing else is about: `load` over every entry of the directory against `readExact` for one
 request, and the removal of temporary links when the spool is opened. Names are the real ones, a digest of the request
 id and a suffix; an entry may also be something other than a regular file.
 */
module JournalLoad {
  import opened Wrappers
  import opened Text

  /** A record as it is parsed: whose it is, whether it is terminal, and the rest. */
  datatype Journal = Journal(requestId: Str, terminal: bool, rest: int)

  /**
   `text` is what reading the name gives, nothing when that fails. What is no regular file may be a link; reading a
   link follows it, and `leads` says whether it leads anywhere.
   */
  datatype Entry =
    | Regular(ino: nat, private: bool, text: Option<Str>)
    | Other(leads: bool, text: Option<Str>)

  type Directory = map<Str, Entry>

  const JSON: Str := Ascii(".json")
  const TERMINAL: Str := Ascii(".terminal")

  function MainPath(digest: Str -> Str, id: Str): Str {
    digest(id) + JSON
  }

  function ClaimPath(digest: Str -> Str, id: Str): Str {
    MainPath(digest, id) + TERMINAL
  }

  ghost predicate Injective(digest: Str -> Str) {
    forall a, b :: digest(a) == digest(b) ==> a == b
  }

  predicate EndsWith(s: Str, suffix: Str) {
    |suffix| <= |s| && s[|s| - |suffix|..] == suffix
  }

  // ---- reading one request ----

  predicate Exists(dir: Directory, name: Str) {
    name in dir && (dir[name].Regular? || dir[name].leads)
  }

  /** The record under a name, if the text there is one, is terminal where it has to be, and belongs there. */
  function RecordAt(dir: Directory, name: Str, claim: bool, digest: Str -> Str, parse: Str -> Option<Journal>):
    Option<Journal>
  {
    if name !in dir || dir[name].text.None? then None
    else
      var parsed := parse(dir[name].text.value);
      if parsed.None? then None
      else
        var path := if claim then ClaimPath(digest, parsed.value.requestId) else MainPath(digest, parsed.value.requestId);
        if path == name && (claim ==> parsed.value.terminal) then parsed else None
  }

  datatype Answer = Absent | Found(journal: Journal) | Threw

  function FoundOrThrew(record: Option<Journal>): Answer {
    if record.Some? then Found(record.value) else Threw
  }

  /** `readExact` */
  function ReadExact(dir: Directory, id: Str, digest: Str -> Str, parse: Str -> Option<Journal>): Answer {
    var claim, main := ClaimPath(digest, id), MainPath(digest, id);
    if Exists(dir, claim) then FoundOrThrew(RecordAt(dir, claim, true, digest, parse))
    else if !Exists(dir, main) then Absent
    else FoundOrThrew(RecordAt(dir, main, false, digest, parse))
  }

  // ---- reading every request ----

  predicate IsFile(dir: Directory, name: Str) {
    name in dir && dir[name].Regular?
  }

  /** What `load` makes of one entry. */
  function LoadedFrom(dir: Directory, name: Str, digest: Str -> Str, parse: Str -> Option<Journal>): Option<Journal> {
    if !IsFile(dir, name) then None
    else if EndsWith(name, JSON + TERMINAL) then RecordAt(dir, name, true, digest, parse)
    else if !EndsWith(name, JSON) || IsFile(dir, name + TERMINAL) then None
    else RecordAt(dir, name, false, digest, parse)
  }

  /** What `load` comes to for one request: a regular claim hides the main record, whatever the claim says. */
  function Loaded(dir: Directory, id: Str, digest: Str -> Str, parse: Str -> Option<Journal>): Option<Journal> {
    var claim, main := ClaimPath(digest, id), MainPath(digest, id);
    if IsFile(dir, claim) then RecordAt(dir, claim, true, digest, parse)
    else if IsFile(dir, main) then RecordAt(dir, main, false, digest, parse)
    else None
  }

  lemma PathsEnd(digest: Str -> Str, id: Str)
    ensures EndsWith(ClaimPath(digest, id), JSON + TERMINAL)
    ensures EndsWith(MainPath(digest, id), JSON) && !EndsWith(MainPath(digest, id), JSON + TERMINAL)
  {
    var main, claim := MainPath(digest, id), ClaimPath(digest, id);
    assert claim == digest(id) + (JSON + TERMINAL);
    assert EndsWith(main, JSON) && JSON[4] == 0x6E;
    assert (JSON + TERMINAL)[13] == TERMINAL[8] == 0x6C;
    EndsDiffer(main, JSON, JSON + TERMINAL);
  }

  lemma EndsDiffer(s: Str, a: Str, b: Str)
    requires EndsWith(s, a) && a != [] && b != [] && a[|a| - 1] != b[|b| - 1]
    ensures !EndsWith(s, b)
  {
    var n := |s|;
    assert s[n - |a|..][|a| - 1] == s[n - 1];
    if |b| <= n {
      assert s[n - |b|..][|b| - 1] == s[n - 1];
    }
  }

  /** An entry gives a record to the request whose name it stands under, and to no other. */
  lemma LoadedFromIsLoaded(dir: Directory, name: Str, digest: Str -> Str, parse: Str -> Option<Journal>)
    requires Injective(digest) && LoadedFrom(dir, name, digest, parse).Some?
    ensures var j := LoadedFrom(dir, name, digest, parse).value;
            && Loaded(dir, j.requestId, digest, parse) == Some(j)
            && name == if IsFile(dir, ClaimPath(digest, j.requestId)) then ClaimPath(digest, j.requestId)
                       else MainPath(digest, j.requestId)
  {
    PathsEnd(digest, LoadedFrom(dir, name, digest, parse).value.requestId);
  }

  lemma LoadedComesFrom(dir: Directory, id: Str, digest: Str -> Str, parse: Str -> Option<Journal>)
    requires Injective(digest) && Loaded(dir, id, digest, parse).Some?
    ensures var claim := ClaimPath(digest, id);
            var name := if IsFile(dir, claim) then claim else MainPath(digest, id);
            && name in dir && LoadedFrom(dir, name, digest, parse) == Loaded(dir, id, digest, parse)
    ensures Loaded(dir, id, digest, parse).value.requestId == id
  {
    PathsEnd(digest, id);
    var j := Loaded(dir, id, digest, parse).value;
    SuffixesMatch(digest, j.requestId, id);
  }

  lemma SuffixesMatch(digest: Str -> Str, a: Str, b: Str)
    requires Injective(digest)
    ensures MainPath(digest, a) == MainPath(digest, b) ==> a == b
    ensures ClaimPath(digest, a) == ClaimPath(digest, b) ==> a == b
  {
    var m, n := MainPath(digest, a), MainPath(digest, b);
    assert m[..|m| - 5] == digest(a) && n[..|n| - 5] == digest(b);
    var c, d := ClaimPath(digest, a), ClaimPath(digest, b);
    assert c[..|c| - 9] == m && d[..|d| - 9] == n;
  }

  // ---- what is told ----

  /** The text under a name is a record, and this one. */
  predicate Says(dir: Directory, name: Str, j: Journal, parse: Str -> Option<Journal>) {
    name in dir && dir[name].text.Some? && parse(dir[name].text.value) == Some(j)
  }

  lemma RecordIs(dir: Directory, id: Str, claim: bool, j: Journal, digest: Str -> Str, parse: Str -> Option<Journal>)
    requires Injective(digest)
    ensures var name := if claim then ClaimPath(digest, id) else MainPath(digest, id);
            RecordAt(dir, name, claim, digest, parse) == Some(j)
            <==> Says(dir, name, j, parse) && j.requestId == id && (claim ==> j.terminal)
  {
    SuffixesMatch(digest, id, j.requestId);
  }

  /**
   What is read of a request: the record of its own that its claim says, which must be terminal, or where nothing has the
   claim's name its main record; nothing where neither name exists; and everything else throws.
   */
  lemma ReadTellsIff(dir: Directory, id: Str, j: Journal, digest: Str -> Str, parse: Str -> Option<Journal>)
    requires Injective(digest)
    ensures var claim, main := ClaimPath(digest, id), MainPath(digest, id);
            && (ReadExact(dir, id, digest, parse) == Found(j) <==>
                  && j.requestId == id
                  && if Exists(dir, claim) then Says(dir, claim, j, parse) && j.terminal
                     else Exists(dir, main) && Says(dir, main, j, parse))
            && (ReadExact(dir, id, digest, parse) == Absent <==> !Exists(dir, claim) && !Exists(dir, main))
  {
    RecordIs(dir, id, true, j, digest, parse);
    RecordIs(dir, id, false, j, digest, parse);
  }

  /** What is loaded of a request, likewise, where only regular files count. */
  lemma LoadTellsIff(dir: Directory, id: Str, j: Journal, digest: Str -> Str, parse: Str -> Option<Journal>)
    requires Injective(digest)
    ensures var claim, main := ClaimPath(digest, id), MainPath(digest, id);
            Loaded(dir, id, digest, parse) == Some(j) <==>
              && j.requestId == id
              && if IsFile(dir, claim) then Says(dir, claim, j, parse) && j.terminal
                 else IsFile(dir, main) && Says(dir, main, j, parse)
  {
    RecordIs(dir, id, true, j, digest, parse);
    RecordIs(dir, id, false, j, digest, parse);
  }

  // ---- main results ----

  /** A name under which something stands that is no regular file and leads somewhere. */
  predicate Followed(dir: Directory, name: Str) {
    name in dir && dir[name].Other? && dir[name].leads
  }

  /** `load` and `readExact` tell the same record, or neither tells one. */
  predicate Agree(dir: Directory, id: Str, digest: Str -> Str, parse: Str -> Option<Journal>) {
    match ReadExact(dir, id, digest, parse)
    case Found(j) => Loaded(dir, id, digest, parse) == Some(j)
    case _ => Loaded(dir, id, digest, parse) == None
  }

  /** For one content: where no link is followed there is nothing to ask, and where one is, it must lead to nothing new. */
  lemma LinksDecide(dir: Directory, id: Str, digest: Str -> Str, parse: Str -> Option<Journal>)
    ensures var claim, main := ClaimPath(digest, id), MainPath(digest, id);
            Agree(dir, id, digest, parse) <==>
              if Followed(dir, claim) then
                RecordAt(dir, claim, true, digest, parse)
                == if IsFile(dir, main) then RecordAt(dir, main, false, digest, parse) else None
              else if Followed(dir, main) then
                IsFile(dir, claim) || RecordAt(dir, main, false, digest, parse) == None
              else true
  {
  }

  /** No link is followed for this request: none under the claim's name, none under the main name without a claim. */
  predicate Unlinked(dir: Directory, id: Str, digest: Str -> Str) {
    && !Followed(dir, ClaimPath(digest, id))
    && (IsFile(dir, ClaimPath(digest, id)) || !Followed(dir, MainPath(digest, id)))
  }

  lemma RegularNamesAgree(dir: Directory, id: Str, digest: Str -> Str, parse: Str -> Option<Journal>)
    requires Unlinked(dir, id, digest)
    ensures Agree(dir, id, digest, parse)
  {
    LinksDecide(dir, id, digest, parse);
  }

  /** The same names, kinds, inodes and links, whatever is written behind them. */
  predicate SameShape(dir: Directory, other: Directory) {
    dir.Keys == other.Keys && forall name :: name in dir ==> SameKind(dir[name], other[name])
  }

  predicate SameKind(a: Entry, b: Entry) {
    a.(text := None) == b.(text := None)
  }

  /** The shape of `dir` with one readable text, and everything else unreadable. */
  function Holding(dir: Directory, at: Str, text: Str): Directory {
    map name | name in dir :: dir[name].(text := if name == at then Some(text) else None)
  }

  /** Where a link is followed, a record behind it is told by `readExact`, and nothing is loaded. */
  lemma LinkCanDisagree(dir: Directory, id: Str, digest: Str -> Str)
    returns (other: Directory, parse: Str -> Option<Journal>)
    requires !Unlinked(dir, id, digest)
    ensures SameShape(dir, other) && ReadExact(other, id, digest, parse).Found?
    ensures forall asked :: Loaded(other, asked, digest, parse) == None
  {
    var claim, main := ClaimPath(digest, id), MainPath(digest, id);
    parse := text => Some(Journal(id, true, 0));
    other := Holding(dir, if Followed(dir, claim) then claim else main, []);
  }

  /**
   When `load` and `readExact` tell the same of a request: for everything that can be written in a directory of this
   shape, and every way of parsing it, exactly when no link is followed for the request.
   */
  lemma LoadAgreesIff(dir: Directory, id: Str, digest: Str -> Str)
    ensures (forall other, parse :: SameShape(dir, other) ==> Agree(other, id, digest, parse))
            <==> Unlinked(dir, id, digest)
  {
    if Unlinked(dir, id, digest) {
      forall other, parse | SameShape(dir, other) ensures Agree(other, id, digest, parse) {
        ShapeDecides(dir, other, id, digest);
        RegularNamesAgree(other, id, digest, parse);
      }
    } else {
      var other, parse := LinkCanDisagree(dir, id, digest);
      assert Loaded(other, id, digest, parse) == None;
      assert !Agree(other, id, digest, parse);
    }
  }

  lemma ShapeDecides(dir: Directory, other: Directory, id: Str, digest: Str -> Str)
    requires SameShape(dir, other)
    ensures Unlinked(other, id, digest) == Unlinked(dir, id, digest)
  {
    var claim, main := ClaimPath(digest, id), MainPath(digest, id);
    assert claim in dir ==> SameKind(dir[claim], other[claim]);
    assert main in dir ==> SameKind(dir[main], other[main]);
  }

  // ---- the whole directory ----

  /** The map holds for every request what `load` comes to. */
  ghost predicate TellsLoaded(dir: Directory, journals: map<Str, Journal>, digest: Str -> Str,
                              parse: Str -> Option<Journal>)
  {
    forall id :: Loaded(dir, id, digest, parse) == if id in journals then Some(journals[id]) else None
  }

  /** The map holds what `readExact` finds, request by request, and nothing where it finds nothing. */
  ghost predicate TellsReads(dir: Directory, journals: map<Str, Journal>, digest: Str -> Str,
                             parse: Str -> Option<Journal>)
  {
    forall id :: if id in journals then ReadExact(dir, id, digest, parse) == Found(journals[id])
                 else !ReadExact(dir, id, digest, parse).Found?
  }

  ghost predicate NoneLinked(dir: Directory, digest: Str -> Str) {
    forall id :: Unlinked(dir, id, digest)
  }

  lemma LoadedIsRead(dir: Directory, journals: map<Str, Journal>, digest: Str -> Str, parse: Str -> Option<Journal>)
    requires NoneLinked(dir, digest) && TellsLoaded(dir, journals, digest, parse)
    ensures TellsReads(dir, journals, digest, parse)
  {
    forall id
      ensures if id in journals then ReadExact(dir, id, digest, parse) == Found(journals[id])
              else !ReadExact(dir, id, digest, parse).Found?
    {
      assert Unlinked(dir, id, digest);
      RegularNamesAgree(dir, id, digest, parse);
      assert Loaded(dir, id, digest, parse) == if id in journals then Some(journals[id]) else None;
    }
  }

  /** So `load` as a whole is a `readExact` of every request, for everything that can be written, exactly then. */
  lemma LoadIsEveryReadIff(dir: Directory, digest: Str -> Str)
    ensures (forall other, parse, journals :: SameShape(dir, other) && TellsLoaded(other, journals, digest, parse) ==>
               TellsReads(other, journals, digest, parse))
            <==> NoneLinked(dir, digest)
  {
    if NoneLinked(dir, digest) {
      forall other, parse, journals | SameShape(dir, other) && TellsLoaded(other, journals, digest, parse)
        ensures TellsReads(other, journals, digest, parse)
      {
        forall id ensures Unlinked(other, id, digest) {
          ShapeDecides(dir, other, id, digest);
        }
        LoadedIsRead(other, journals, digest, parse);
      }
    } else {
      var id :| !Unlinked(dir, id, digest);
      var other, parse := LinkCanDisagree(dir, id, digest);
      assert TellsLoaded(other, map[], digest, parse);
      assert !TellsReads(other, map[], digest, parse);
    }
  }

  /**
   A corrupt claim is not fallen back from: whatever the main record says, the map tells nothing of the request and
   reading it throws; and no change to the main record brings it back into the map.
   */
  lemma CorruptClaimHidesMain(dir: Directory, main: Entry, journals: map<Str, Journal>, id: Str, digest: Str -> Str,
                              parse: Str -> Option<Journal>)
    requires var claim := ClaimPath(digest, id);
             IsFile(dir, claim) && RecordAt(dir, claim, true, digest, parse) == None
    requires TellsLoaded(dir[MainPath(digest, id) := main], journals, digest, parse)
    ensures id !in journals && ReadExact(dir[MainPath(digest, id) := main], id, digest, parse) == Threw
  {
    var now := dir[MainPath(digest, id) := main];
    PathsEnd(digest, id);
    assert Loaded(now, id, digest, parse) == None;
  }

  /** Where the claim is a link, `readExact` throws for what is behind it while `load` still tells the main record. */
  lemma LinkedClaimDisagrees(id: Str, text: Str, digest: Str -> Str, parse: Str -> Option<Journal>)
    requires parse(text) == Some(Journal(id, false, 0))
    ensures var main, claim := MainPath(digest, id), ClaimPath(digest, id);
            var dir := map[main := Regular(0, true, Some(text)), claim := Other(true, None)];
            && ReadExact(dir, id, digest, parse) == Threw
            && Loaded(dir, id, digest, parse) == Some(Journal(id, false, 0))
  {
    PathsEnd(digest, id);
  }

  // ---- temporary links ----

  predicate IsHex(c: Unit) {
    IsDigit(c) || 0x61 <= c <= 0x66
  }

  const DOT: Unit := 0x2E

  /** The main name in front of a temporary one: 64 hex digits, `.json`, a process number, twelve hex digits. */
  function TempOf(name: Str): Option<Str> {
    if |name| < 84 then None
    else
      var n := |name| - 13;
      if && (forall i :: 0 <= i < 64 ==> IsHex(name[i]))
         && name[64..69] == JSON && name[69] == DOT
         && (forall i :: 70 <= i < n ==> IsDigit(name[i]))
         && name[n] == DOT && (forall i :: n < i < |name| ==> IsHex(name[i]))
      then Some(name[..69])
      else None
  }

  predicate AllDigits(s: Str) {
    forall i :: 0 <= i < |s| ==> IsDigit(s[i])
  }

  predicate AllHex(s: Str) {
    forall i :: 0 <= i < |s| ==> IsHex(s[i])
  }

  /** A temporary name as it is written: the main name, the process number and six random bytes in hex. */
  function TempName(digest: Str, process: Str, suffix: Str): Str {
    digest + JSON + [DOT] + process + [DOT] + suffix
  }

  predicate TempParts(digest: Str, process: Str, suffix: Str) {
    |digest| == 64 && AllHex(digest) && process != [] && AllDigits(process) && |suffix| == 12 && AllHex(suffix)
  }

  lemma WrittenTempIsTemp(digest: Str, process: Str, suffix: Str)
    requires TempParts(digest, process, suffix)
    ensures TempOf(TempName(digest, process, suffix)) == Some(digest + JSON)
  {
    var name, n := TempName(digest, process, suffix), 70 + |process|;
    assert |name| == n + 13;
    assert name[..69] == digest + JSON && name[64..69] == JSON && name[69] == DOT && name[n] == DOT;
    assert forall i :: 0 <= i < 64 ==> name[i] == digest[i];
    assert forall i :: 70 <= i < n ==> name[i] == process[i - 70];
    assert forall i :: n < i < |name| ==> name[i] == suffix[i - n - 1];
  }

  lemma TempIsWritten(name: Str) returns (digest: Str, process: Str, suffix: Str)
    requires TempOf(name).Some?
    ensures TempParts(digest, process, suffix) && name == TempName(digest, process, suffix)
    ensures TempOf(name) == Some(digest + JSON)
  {
    var n := |name| - 13;
    digest, process, suffix := name[..64], name[70..n], name[n + 1..];
    assert name[..69] == digest + JSON;
    assert name == name[..69] + [name[69]] + process + [name[n]] + suffix;
  }

  /** Exactly the names the spool writes its temporary files under are taken for such, each of its own main name. */
  lemma TempNamesAreThoseWritten(name: Str, main: Str)
    ensures TempOf(name) == Some(main) <==>
              exists digest, process, suffix ::
                TempParts(digest, process, suffix) && name == TempName(digest, process, suffix) && main == digest + JSON
  {
    if TempOf(name) == Some(main) {
      var digest, process, suffix := TempIsWritten(name);
    }
    forall digest, process, suffix | TempParts(digest, process, suffix) && name == TempName(digest, process, suffix)
      ensures TempOf(name) == Some(digest + JSON)
    {
      WrittenTempIsTemp(digest, process, suffix);
    }
  }

  predicate SameFile(dir: Directory, name: Str, temp: Str)
    requires temp in dir && dir[temp].Regular?
  {
    IsFile(dir, name) && dir[name].private && dir[name].ino == dir[temp].ino
  }

  /** A temporary link to a file the main name or the claim also leads to. */
  predicate Represented(dir: Directory, name: Str) {
    && IsFile(dir, name) && dir[name].private && TempOf(name).Some?
    && (SameFile(dir, TempOf(name).value, name) || SameFile(dir, TempOf(name).value + TERMINAL, name))
  }

  lemma TempNames(name: Str, digest: Str -> Str, id: Str)
    requires TempOf(name).Some?
    ensures name != MainPath(digest, id) && name != ClaimPath(digest, id)
    ensures TempOf(TempOf(name).value) == None && TempOf(TempOf(name).value + TERMINAL) == None
  {
    var main, claim := MainPath(digest, id), ClaimPath(digest, id);
    assert IsHex(name[|name| - 1]);
    assert main[|main| - 1] == JSON[4] == 0x6E;
    assert claim[|claim| - 1] == TERMINAL[8] == 0x6C;
  }

  function Scavenged(dir: Directory): Directory {
    map name | name in dir && !Represented(dir, name) :: dir[name]
  }

  /** Removing them changes no request's record, neither as `readExact` tells it nor as `load` does. */
  lemma ScavengingChangesNoRecord(dir: Directory, id: Str, digest: Str -> Str, parse: Str -> Option<Journal>)
    ensures ReadExact(Scavenged(dir), id, digest, parse) == ReadExact(dir, id, digest, parse)
    ensures Loaded(Scavenged(dir), id, digest, parse) == Loaded(dir, id, digest, parse)
  {
    var main, claim := MainPath(digest, id), ClaimPath(digest, id);
    if TempOf(main).Some? {
      TempNames(main, digest, id);
    }
    if TempOf(claim).Some? {
      TempNames(claim, digest, id);
    }
  }

  // ---- the spool as the program has it ----

  /** The names the directory lists, each once, in any order. */
  predicate Lists(names: seq<Str>, dir: Directory) {
    && (forall i :: 0 <= i < |names| ==> names[i] in dir)
    && (forall i, j :: 0 <= i < j < |names| ==> names[i] != names[j])
    && (forall name :: name in dir ==> name in names)
  }

  function Without(dir: Directory, name: Str): Directory {
    map other | other in dir && other != name :: dir[other]
  }

  class Spool {
    var dir: Directory

    constructor (found: Directory)
      ensures dir == found
    {
      dir := found;
    }

    method Scavenge(names: seq<Str>)
      requires Lists(names, dir)
      modifies this
      ensures dir == Scavenged(old(dir))
    {
      for i := 0 to |names|
        invariant LeftToLookAt(old(dir), dir, names[i..])
      {
        var name := names[i];
        assert names[i..] == [name] + names[i + 1..];
        LookedAt(old(dir), dir, name, names[i + 1..]);
        if Represented(dir, name) {
          dir := Without(dir, name);
        }
      }
      NothingLeft(old(dir), dir);
    }

    method Load(names: seq<Str>, digest: Str -> Str, parse: Str -> Option<Journal>)
      returns (journals: map<Str, Journal>)
      requires Lists(names, dir) && Injective(digest)
      ensures TellsLoaded(dir, journals, digest, parse)
      ensures NoneLinked(dir, digest) ==> TellsReads(dir, journals, digest, parse)
    {
      var claimNames := set name | name in names && IsFile(dir, name) && EndsWith(name, JSON + TERMINAL);
      journals := map[];
      for i := 0 to |names|
        invariant forall id :: id in journals ==> Loaded(dir, id, digest, parse) == Some(journals[id])
        invariant TakenIn(dir, names[..i], digest, parse, journals)
      {
        var name := names[i];
        var parsed := ReadEntry(name, claimNames, digest, parse);
        ghost var before := journals;
        if parsed.Some? {
          LoadedFromIsLoaded(dir, name, digest, parse);
          journals := journals[parsed.value.requestId := parsed.value];
        }
        TakenInMore(dir, names, i, digest, parse, before, journals);
      }
      assert names[..|names|] == names;
      AllTakenIn(dir, names, digest, parse, journals);
      assert TellsLoaded(dir, journals, digest, parse);
      if NoneLinked(dir, digest) {
        LoadedIsRead(dir, journals, digest, parse);
      }
    }

    /** One entry; what cannot be read as a record is left out, whatever the reason. */
    method ReadEntry(name: Str, claimNames: set<Str>, digest: Str -> Str, parse: Str -> Option<Journal>)
      returns (parsed: Option<Journal>)
      requires forall n :: n in claimNames <==> IsFile(dir, n) && EndsWith(n, JSON + TERMINAL)
      ensures parsed == LoadedFrom(dir, name, digest, parse)
    {
      if !IsFile(dir, name) {
        return None;
      }
      if EndsWith(name, JSON + TERMINAL) {
        return RecordAt(dir, name, true, digest, parse);
      }
      if EndsWith(name, JSON) {
        ClaimNameEnds(name);
      }
      if !EndsWith(name, JSON) || name + TERMINAL in claimNames {
        return None;
      }
      return RecordAt(dir, name, false, digest, parse);
    }
  }

  lemma TakenInMore(dir: Directory, names: seq<Str>, i: nat, digest: Str -> Str, parse: Str -> Option<Journal>,
                    before: map<Str, Journal>, journals: map<Str, Journal>)
    requires i < |names| && TakenIn(dir, names[..i], digest, parse, before)
    requires forall id :: id in before ==> id in journals
    requires var from := LoadedFrom(dir, names[i], digest, parse); from.Some? ==> from.value.requestId in journals
    ensures TakenIn(dir, names[..i + 1], digest, parse, journals)
  {
    forall k | 0 <= k < i + 1
      ensures var from := LoadedFrom(dir, names[k], digest, parse); from.Some? ==> from.value.requestId in journals
    {
      if k < i {
        assert names[..i][k] == names[k];
      }
    }
  }

  /** Every record an entry gives is in the map. */
  predicate TakenIn(dir: Directory, names: seq<Str>, digest: Str -> Str, parse: Str -> Option<Journal>,
                    journals: map<Str, Journal>)
  {
    forall k :: 0 <= k < |names| ==>
      var from := LoadedFrom(dir, names[k], digest, parse);
      from.Some? ==> from.value.requestId in journals
  }

  lemma AllTakenIn(dir: Directory, names: seq<Str>, digest: Str -> Str, parse: Str -> Option<Journal>,
                   journals: map<Str, Journal>)
    requires Lists(names, dir) && Injective(digest) && TakenIn(dir, names, digest, parse, journals)
    ensures forall id :: Loaded(dir, id, digest, parse).Some? ==> id in journals
  {
    forall id | Loaded(dir, id, digest, parse).Some? ensures id in journals {
      LoadedComesFrom(dir, id, digest, parse);
      var claim := ClaimPath(digest, id);
      var name := if IsFile(dir, claim) then claim else MainPath(digest, id);
      assert name in names;
    }
  }

  /** The directory with every represented temporary link gone but those still to be looked at. */
  ghost predicate LeftToLookAt(before: Directory, now: Directory, names: seq<Str>) {
    && (forall n :: n in now <==> n in before && (n in names || !Represented(before, n)))
    && (forall n :: n in now ==> now[n] == before[n])
  }

  lemma NothingLeft(before: Directory, now: Directory)
    requires LeftToLookAt(before, now, [])
    ensures now == Scavenged(before)
  {
  }

  lemma LookedAt(before: Directory, now: Directory, name: Str, rest: seq<Str>)
    requires LeftToLookAt(before, now, [name] + rest) && name in before && name !in rest
    ensures LeftToLookAt(before, if Represented(now, name) then Without(now, name) else now, rest)
  {
    RepresentedStill(before, now, name);
    assert forall n :: n in [name] + rest <==> n == name || n in rest;
  }

  lemma ClaimNameEnds(name: Str)
    requires EndsWith(name, JSON)
    ensures EndsWith(name + TERMINAL, JSON + TERMINAL)
  {
    var n := |name| - 5;
    assert (name + TERMINAL)[n..] == name[n..] + TERMINAL;
  }

  /** Removing temporary links takes none of the names that represent them. */
  lemma RepresentedStill(before: Directory, now: Directory, name: Str)
    requires forall n :: n in now ==> n in before && now[n] == before[n]
    requires forall n :: n in before && n !in now ==> TempOf(n).Some?
    requires name in now
    ensures Represented(now, name) == Represented(before, name)
  {
    if TempOf(name).Some? {
      TempNames(name, (id: Str) => id, []);
    }
  }
}
