/**
 The daemon's command line taken apart. A line is accepted exactly when it is a row of complete units, words and flags;
 where a flag stands among units of other names makes no difference, and neither does the form its value is given in.
 */
module CommandLine {
  import opened Wrappers
  import opened Text
  import opened Framing

  const DASH: Unit := 0x2D
  const EQUALS: Unit := 0x3D

  /** The flags there are: those that take a value, and those that stand alone. */
  datatype Flags = Flags(valued: seq<Str>, bare: seq<Str>)

  const DAEMON_FLAGS: Flags := Flags(
    [Ascii("--lab"), Ascii("--port"), Ascii("--data-dir"), Ascii("--work-dir"), Ascii("--code")],
    [Ascii("--no-browser"), Ascii("--detached"), Ascii("--help"), Ascii("-h"), Ascii("--version"), Ascii("--tail"),
     Ascii("--lab-only")])

  datatype Line = Line(words: seq<Str>, values: map<Str, Str>, present: set<Str>)

  const NOTHING: Line := Line([], map[], {})

  datatype Refusal =
    | NothingFollowed(name: Str)
    | AnotherFlag(name: Str, next: Str)
    | NothingAfterSign(name: Str)
    | TakesNoValue(name: Str)
    | NotTaken(name: Str)

  /** One unit of a line: a command word, a flag with what it was given, or a flag alone. */
  datatype Item = Word(word: Str) | Value(name: Str, value: Str) | Bare(name: Str)

  predicate Dashed(s: Str) {
    s != [] && s[0] == DASH
  }

  // ---- the specification: units one after another, then collected ----

  datatype Taken = Taken(item: Item, width: nat)

  function TakeFlag(flags: Flags, arg: Str, next: Option<Str>): (r: Result<Taken, Refusal>)
    ensures r.Success? ==> r.value.width == 1 || (r.value.width == 2 && next.Some?)
  {
    var sign := IndexOf(arg, [EQUALS]);
    var name := if sign == -1 then arg else arg[..sign];
    if name in flags.valued then
      if sign == -1 then
        if next.None? then Failure(NothingFollowed(name))
        else if Dashed(next.value) then Failure(AnotherFlag(name, next.value))
        else Success(Taken(Value(name, next.value), 2))
      else if arg[sign + 1..] == [] then Failure(NothingAfterSign(name))
      else Success(Taken(Value(name, arg[sign + 1..]), 1))
    else if name in flags.bare then
      if sign == -1 then Success(Taken(Bare(name), 1)) else Failure(TakesNoValue(name))
    else Failure(NotTaken(name))
  }

  function TakeOne(flags: Flags, arg: Str, next: Option<Str>): (r: Result<Taken, Refusal>)
    ensures r.Success? ==> r.value.width == 1 || (r.value.width == 2 && next.Some?)
  {
    if !Dashed(arg) then Success(Taken(Word(arg), 1)) else TakeFlag(flags, arg, next)
  }

  function After(args: seq<Str>, index: nat): Option<Str> {
    if index + 1 < |args| then Some(args[index + 1]) else None
  }

  /** The unit the arguments start with, and how many of them it takes. */
  function Take(flags: Flags, args: seq<Str>): (r: Result<Taken, Refusal>)
    requires args != []
    ensures r.Success? ==> 1 <= r.value.width <= |args|
  {
    TakeOne(flags, args[0], After(args, 0))
  }

  function Items(flags: Flags, args: seq<Str>): Result<seq<Item>, Refusal>
    decreases |args|
  {
    if args == [] then Success([])
    else
      var first := Take(flags, args);
      if first.Failure? then Failure(first.error)
      else InFront(first.value.item, Items(flags, args[first.value.width..]))
  }

  function InFront(item: Item, more: Result<seq<Item>, Refusal>): Result<seq<Item>, Refusal> {
    match more
    case Failure(e) => Failure(e)
    case Success(items) => Success([item] + items)
  }

  /** The first of a repeated flag wins. */
  function Add(line: Line, item: Item): Line {
    match item
    case Word(word) => line.(words := line.words + [word])
    case Value(name, value) => if name in line.values then line else line.(values := line.values[name := value])
    case Bare(name) => line.(present := line.present + {name})
  }

  function Collect(line: Line, items: seq<Item>): Line
    decreases |items|
  {
    if items == [] then line else Collect(Add(line, items[0]), items[1..])
  }

  function Collected(line: Line, items: Result<seq<Item>, Refusal>): Result<Line, Refusal> {
    match items
    case Failure(e) => Failure(e)
    case Success(found) => Success(Collect(line, found))
  }

  /** What the line comes to. */
  function Scanned(flags: Flags, args: seq<Str>): Result<Line, Refusal> {
    Collected(NOTHING, Items(flags, args))
  }

  // ---- `scan` as the program has it ----

  method Scan(flags: Flags, argv: seq<Str>) returns (r: Result<Line, Refusal>)
    ensures r == Scanned(flags, argv)
  {
    var line, index := NOTHING, 0;
    assert argv[0..] == argv;
    while index < |argv|
      invariant 0 <= index <= |argv|
      invariant Collected(line, Items(flags, argv[index..])) == Scanned(flags, argv)
    {
      UnitAt(flags, line, argv, index);
      var unit := ScanUnit(flags, argv, index, line);
      if unit.Failure? {
        return Failure(unit.error);
      }
      line, index := unit.value.0, unit.value.1;
    }
    assert argv[index..] == [];
    r := Success(line);
  }

  /** One turn of the loop: the line with the next unit in it, and where the one after that starts. */
  method ScanUnit(flags: Flags, argv: seq<Str>, index: nat, line: Line) returns (r: Result<(Line, nat), Refusal>)
    requires index < |argv|
    ensures var first := TakeOne(flags, argv[index], After(argv, index));
            r == if first.Failure? then Failure(first.error)
                 else Success((Add(line, first.value.item), index + first.value.width))
  {
    var words, values, present := line.words, line.values, line.present;
    var arg, next := argv[index], index + 1;
    if !Dashed(arg) {
      words := words + [arg];
      return Success((Line(words, values, present), next));
    }
    var sign := IndexOf(arg, [EQUALS]);
    var name := if sign == -1 then arg else arg[..sign];
    if name in flags.valued {
      var value;
      if sign == -1 {
        if next == |argv| {
          return Failure(NothingFollowed(name));
        }
        if Dashed(argv[next]) {
          return Failure(AnotherFlag(name, argv[next]));
        }
        value := argv[next];
        next := next + 1;
      } else {
        value := arg[sign + 1..];
        if value == [] {
          return Failure(NothingAfterSign(name));
        }
      }
      if name !in values {
        values := values[name := value];
      }
      return Success((Line(words, values, present), next));
    }
    if name in flags.bare {
      if sign != -1 {
        return Failure(TakesNoValue(name));
      }
      present := present + {name};
      return Success((Line(words, values, present), next));
    }
    return Failure(NotTaken(name));
  }

  lemma UnitAt(flags: Flags, line: Line, argv: seq<Str>, index: nat)
    requires index < |argv|
    ensures var first := TakeOne(flags, argv[index], After(argv, index));
            Collected(line, Items(flags, argv[index..]))
            == if first.Failure? then Failure(first.error)
               else Collected(Add(line, first.value.item), Items(flags, argv[index + first.value.width..]))
  {
    var args := argv[index..];
    OneUnit(flags, line, args);
    assert args[0] == argv[index] && After(args, 0) == After(argv, index);
    assert args[1..] == argv[index + 1..];
    assert |args| > 1 ==> args[2..] == argv[index + 2..];
  }

  lemma OneUnit(flags: Flags, line: Line, args: seq<Str>)
    requires args != []
    ensures var first := Take(flags, args);
            Collected(line, Items(flags, args))
            == if first.Failure? then Failure(first.error)
               else Collected(Add(line, first.value.item), Items(flags, args[first.value.width..]))
  {
    if Take(flags, args).Success? {
      var more := Items(flags, args[Take(flags, args).value.width..]);
      if more.Success? {
        assert ([Take(flags, args).value.item] + more.value)[1..] == more.value;
      }
    }
  }

  // ---- what a collected line holds ----

  function WordsOf(items: seq<Item>): seq<Str> {
    if items == [] then []
    else (if items[0].Word? then [items[0].word] else []) + WordsOf(items[1..])
  }

  function FirstValue(items: seq<Item>, name: Str): Option<Str> {
    if items == [] then None
    else if items[0].Value? && items[0].name == name then Some(items[0].value)
    else FirstValue(items[1..], name)
  }

  /** Words in their order, for each flag the first value it was given, and the flags that stand alone. */
  lemma {:induction false} CollectHolds(line: Line, items: seq<Item>, name: Str)
    ensures var l := Collect(line, items);
            && l.words == line.words + WordsOf(items)
            && (name in l.values <==> name in line.values || FirstValue(items, name).Some?)
            && (name in line.values ==> l.values[name] == line.values[name])
            && (name !in line.values && FirstValue(items, name).Some? ==>
                  l.values[name] == FirstValue(items, name).value)
            && (name in l.present <==> name in line.present || Bare(name) in items)
    decreases |items|
  {
    if items != [] {
      CollectHolds(Add(line, items[0]), items[1..], name);
      assert items == [items[0]] + items[1..];
      if items[0].Word? {
        assert line.words + ([items[0].word] + WordsOf(items[1..]))
            == (line.words + [items[0].word]) + WordsOf(items[1..]);
      } else {
        assert [] + WordsOf(items[1..]) == WordsOf(items[1..]);
      }
    }
  }

  lemma ScannedHolds(flags: Flags, args: seq<Str>, name: Str)
    requires Scanned(flags, args).Success?
    ensures Items(flags, args).Success?
    ensures var items := Items(flags, args).value;
            var line := Scanned(flags, args).value;
            && line.words == WordsOf(items)
            && (if name in line.values then Some(line.values[name]) else None) == FirstValue(items, name)
            && (name in line.present <==> Bare(name) in items)
  {
    CollectHolds(NOTHING, Items(flags, args).value, name);
    assert [] + WordsOf(Items(flags, args).value) == WordsOf(Items(flags, args).value);
  }

  // ---- units as they are written ----

  datatype Form = Plain(word: Str) | Spaced(name: Str, value: Str) | Signed(name: Str, value: Str) | Alone(name: Str)

  predicate Proper(flags: Flags, f: Form) {
    match f
    case Plain(word) => !Dashed(word)
    case Spaced(name, value) => name in flags.valued && !Dashed(value)
    case Signed(name, value) => name in flags.valued && value != []
    case Alone(name) => name in flags.bare
  }

  function Written(f: Form): (args: seq<Str>)
    ensures args != []
  {
    match f
    case Plain(word) => [word]
    case Spaced(name, value) => [name, value]
    case Signed(name, value) => [name + [EQUALS] + value]
    case Alone(name) => [name]
  }

  function WrittenAll(forms: seq<Form>): seq<Str> {
    if forms == [] then [] else Written(forms[0]) + WrittenAll(forms[1..])
  }

  function ItemOf(f: Form): Item {
    match f
    case Plain(word) => Word(word)
    case Spaced(name, value) => Value(name, value)
    case Signed(name, value) => Value(name, value)
    case Alone(name) => Bare(name)
  }

  predicate AllProper(flags: Flags, forms: seq<Form>) {
    forall i :: 0 <= i < |forms| ==> Proper(flags, forms[i])
  }

  predicate FlagLike(name: Str) {
    Dashed(name) && forall i :: 0 <= i < |name| ==> name[i] != EQUALS
  }

  /** Flags start with a dash and hold no equals sign, and none is of both kinds. */
  predicate Sound(flags: Flags) {
    && (forall i :: 0 <= i < |flags.valued| ==> FlagLike(flags.valued[i]) && flags.valued[i] !in flags.bare)
    && (forall i :: 0 <= i < |flags.bare| ==> FlagLike(flags.bare[i]))
  }

  lemma DifferentNames(i: nat, j: nat)
    requires i < |DAEMON_FLAGS.valued| && j < |DAEMON_FLAGS.bare|
    ensures DAEMON_FLAGS.valued[i] != DAEMON_FLAGS.bare[j]
  {
    var v, b := DAEMON_FLAGS.valued[i], DAEMON_FLAGS.bare[j];
    assert |v| == [5, 6, 10, 10, 6][i] && |b| == [12, 10, 6, 2, 9, 6, 10][j];
    if |v| == |b| {
      assert v[2] == [0x6C, 0x70, 0x64, 0x77, 0x63][i];
      assert b[2] == [0x6E, 0x64, 0x68, 0, 0x76, 0x74, 0x6C][j];
      assert v[3] == [0x61, 0x6F, 0x61, 0x6F, 0x6F][i];
      assert b[3] == [0x6F, 0x65, 0x65, 0, 0x65, 0x61, 0x61][j];
    }
  }

  /** The daemon's own flags are such flags. */
  lemma DaemonFlagsAreSound()
    ensures Sound(DAEMON_FLAGS)
  {
    var flags := DAEMON_FLAGS;
    forall i | 0 <= i < |flags.valued| ensures FlagLike(flags.valued[i]) && flags.valued[i] !in flags.bare {
      assert flags.valued[i][0] == DASH;
      forall j | 0 <= j < |flags.bare| ensures flags.valued[i] != flags.bare[j] {
        DifferentNames(i, j);
      }
    }
    forall i | 0 <= i < |flags.bare| ensures FlagLike(flags.bare[i]) {
      assert flags.bare[i][0] == DASH;
    }
  }

  lemma SignAfterName(name: Str, value: Str)
    requires EQUALS !in name
    ensures IndexOf(name + [EQUALS] + value, [EQUALS]) == |name| && IndexOf(name, [EQUALS]) == -1
  {
    var s := name + [EQUALS] + value;
    assert s[|name|..|name| + 1] == [EQUALS];
    assert StartsAt(s, [EQUALS], |name|);
    forall k: nat | k < |name| ensures !StartsAt(s, [EQUALS], k) && !StartsAt(name, [EQUALS], k) {
      assert name[k] in name && s[k..k + 1] == [name[k]] && name[k..k + 1] == [name[k]];
    }
  }

  /** A proper unit is taken as its item, whatever follows it. */
  lemma TakeWritten(flags: Flags, f: Form, rest: seq<Str>)
    requires Sound(flags) && Proper(flags, f)
    ensures Take(flags, Written(f) + rest) == Success(Taken(ItemOf(f), |Written(f)|))
    ensures (Written(f) + rest)[|Written(f)|..] == rest
  {
    var args := Written(f) + rest;
    assert args[0] == Written(f)[0];
    if !f.Plain? {
      SignAfterName(f.name, if f.Signed? then f.value else []);
      if f.Signed? {
        assert args[0][..|f.name|] == f.name && args[0][|f.name| + 1..] == f.value;
      }
    }
  }

  lemma ItemsWritten(flags: Flags, f: Form, rest: seq<Str>)
    requires Sound(flags) && Proper(flags, f)
    ensures Items(flags, Written(f) + rest) == InFront(ItemOf(f), Items(flags, rest))
  {
    TakeWritten(flags, f, rest);
  }

  // ---- what is accepted ----

  /** Items of a beginning, then what comes after it. */
  function Then(items: seq<Item>, more: Result<seq<Item>, Refusal>): Result<seq<Item>, Refusal> {
    match more
    case Failure(e) => Failure(e)
    case Success(later) => Success(items + later)
  }

  lemma InFrontThen(item: Item, items: seq<Item>, more: Result<seq<Item>, Refusal>)
    ensures InFront(item, Then(items, more)) == Then([item] + items, more)
  {
    if more.Success? {
      assert [item] + (items + more.value) == [item] + items + more.value;
    }
  }

  lemma ItemsFirst(flags: Flags, args: seq<Str>, item: Item, rest: seq<Str>)
    requires |rest| < |args| && Take(flags, args) == Success(Taken(item, |args| - |rest|))
    requires args[|args| - |rest|..] == rest
    ensures Items(flags, args) == InFront(item, Items(flags, rest))
  {
  }

  lemma {:induction false} ItemsGoOn(flags: Flags, before: seq<Str>, after: seq<Str>)
    requires Items(flags, before).Success?
    ensures Items(flags, before + after) == Then(Items(flags, before).value, Items(flags, after))
    decreases |before|
  {
    if before == [] {
      assert before + after == after;
      if Items(flags, after).Success? {
        assert [] + Items(flags, after).value == Items(flags, after).value;
      }
    } else {
      var taken := Take(flags, before).value;
      var rest := before[taken.width..];
      ItemsFirst(flags, before, taken.item, rest);
      TakeStays(flags, before, after);
      assert (before + after)[taken.width..] == rest + after;
      ItemsFirst(flags, before + after, taken.item, rest + after);
      ItemsGoOn(flags, rest, after);
      InFrontThen(taken.item, Items(flags, rest).value, Items(flags, after));
    }
  }

  lemma TakeStays(flags: Flags, before: seq<Str>, after: seq<Str>)
    requires before != [] && Take(flags, before).Success?
    ensures Take(flags, before + after) == Take(flags, before)
  {
    assert (before + after)[0] == before[0];
    assert |before| > 1 ==> (before + after)[1] == before[1];
  }

  lemma {:induction false} ProperUnitsScan(flags: Flags, forms: seq<Form>)
    requires Sound(flags) && AllProper(flags, forms)
    ensures Scanned(flags, WrittenAll(forms)).Success?
    decreases |forms|
  {
    if forms != [] {
      ProperUnitsScan(flags, forms[1..]);
      ItemsWritten(flags, forms[0], WrittenAll(forms[1..]));
    }
  }

  lemma AcceptedRest(flags: Flags, args: seq<Str>)
    requires args != [] && Items(flags, args).Success?
    ensures Take(flags, args).Success? && Items(flags, args[Take(flags, args).value.width..]).Success?
  {
    OneUnit(flags, NOTHING, args);
  }

  lemma ProperInFront(flags: Flags, f: Form, more: seq<Form>)
    requires Proper(flags, f) && AllProper(flags, more)
    ensures AllProper(flags, [f] + more) && WrittenAll([f] + more) == Written(f) + WrittenAll(more)
  {
    assert ([f] + more)[1..] == more;
  }

  lemma {:induction false} UnitsOfAcceptedLine(flags: Flags, args: seq<Str>) returns (forms: seq<Form>)
    requires Items(flags, args).Success?
    ensures AllProper(flags, forms) && WrittenAll(forms) == args
    decreases |args|
  {
    if args == [] {
      forms := [];
    } else {
      AcceptedRest(flags, args);
      var n := Take(flags, args).value.width;
      var first := FormTaken(flags, args);
      var more := UnitsOfAcceptedLine(flags, args[n..]);
      forms := [first] + more;
      assert AllProper(flags, forms) && WrittenAll(forms) == args by {
        ProperInFront(flags, first, more);
        assert args == args[..n] + args[n..];
      }
    }
  }

  /** A line is accepted exactly when it is proper units one after another. */
  lemma AcceptedIffProperUnits(flags: Flags, args: seq<Str>)
    requires Sound(flags)
    ensures Scanned(flags, args).Success? <==> exists forms :: AllProper(flags, forms) && WrittenAll(forms) == args
  {
    if Scanned(flags, args).Success? {
      var forms := UnitsOfAcceptedLine(flags, args);
      assert AllProper(flags, forms) && WrittenAll(forms) == args;
    }
    forall forms | AllProper(flags, forms) && WrittenAll(forms) == args ensures Scanned(flags, args).Success? {
      ProperUnitsScan(flags, forms);
    }
  }

  lemma FormTaken(flags: Flags, args: seq<Str>) returns (f: Form)
    requires args != [] && Take(flags, args).Success?
    ensures var taken := Take(flags, args).value;
            Proper(flags, f) && Written(f) == args[..taken.width] && ItemOf(f) == taken.item
  {
    var taken := Take(flags, args).value;
    var arg := args[0];
    var sign := IndexOf(arg, [EQUALS]);
    match taken.item
    case Word(word) =>
      f := Plain(word);
    case Bare(name) =>
      f := Alone(name);
    case Value(name, value) =>
      if sign == -1 {
        f := Spaced(name, value);
      } else {
        f := Signed(name, value);
        assert arg[sign..sign + 1] == [EQUALS];
        assert arg == arg[..sign] + [EQUALS] + arg[sign + 1..];
      }
  }

  // ---- what is refused, and why ----

  /** The name is what stands in front of the first equals sign, or all of the argument. */
  predicate Names(arg: Str, name: Str) {
    EQUALS !in name && (arg == name || name + [EQUALS] <= arg)
  }

  /** No unit starts here, for this reason. */
  predicate Faulty(flags: Flags, args: seq<Str>, e: Refusal)
    requires args != []
  {
    match e
    case NothingFollowed(name) => name in flags.valued && args == [name]
    case AnotherFlag(name, next) => name in flags.valued && |args| > 1 && args[0] == name && args[1] == next && Dashed(next)
    case NothingAfterSign(name) => name in flags.valued && args[0] == name + [EQUALS]
    case TakesNoValue(name) => name in flags.bare && name + [EQUALS] <= args[0]
    case NotTaken(name) => Dashed(args[0]) && Names(args[0], name) && name !in flags.valued && name !in flags.bare
  }

  function NameOf(arg: Str): Str {
    var sign := IndexOf(arg, [EQUALS]);
    if sign == -1 then arg else arg[..sign]
  }

  lemma SignIsFirst(arg: Str)
    ensures var sign := IndexOf(arg, [EQUALS]);
            && (forall i :: 0 <= i < (if sign == -1 then |arg| else sign) ==> arg[i] != EQUALS)
            && (sign >= 0 ==> sign < |arg| && arg[sign] == EQUALS)
  {
    var sign := IndexOf(arg, [EQUALS]);
    if sign >= 0 {
      assert arg[sign..sign + 1] == [EQUALS];
      assert arg[sign] == arg[sign..sign + 1][0];
    }
    forall i | 0 <= i < (if sign == -1 then |arg| else sign) ensures arg[i] != EQUALS {
      assert arg[i..i + 1] == [arg[i]];
      assert !StartsAt(arg, [EQUALS], i);
    }
  }

  lemma NamesOne(arg: Str, name: Str)
    ensures Names(arg, name) <==> name == NameOf(arg)
    ensures Names(arg, NameOf(arg))
    ensures IndexOf(arg, [EQUALS]) >= 0 ==> arg == NameOf(arg) + [EQUALS] + arg[|NameOf(arg)| + 1..]
    ensures IndexOf(arg, [EQUALS]) == -1 <==> arg == NameOf(arg)
  {
    SignIsFirst(arg);
    if name + [EQUALS] <= arg {
      assert arg == name + [EQUALS] + arg[|name| + 1..];
      if EQUALS !in name {
        SignAfterName(name, arg[|name| + 1..]);
      }
    }
  }

  lemma NameKind(flags: Flags, arg: Str, name: Str)
    requires Sound(flags) && (name in flags.valued || name in flags.bare)
    ensures Dashed(name) && EQUALS !in name && !(name in flags.valued && name in flags.bare)
    ensures (arg == name ==> NameOf(arg) == name && Dashed(arg))
    ensures (name + [EQUALS] <= arg ==> NameOf(arg) == name && Dashed(arg))
  {
    NamesOne(arg, name);
  }

  /** What a refusal says of the argument and of what follows it. */
  predicate Explains(flags: Flags, arg: Str, next: Option<Str>, e: Refusal) {
    && Dashed(arg) && e.name == NameOf(arg)
    && var signed := IndexOf(arg, [EQUALS]) != -1;
       match e
       case NothingFollowed(name) => name in flags.valued && !signed && next == None
       case AnotherFlag(name, other) => name in flags.valued && !signed && next == Some(other) && Dashed(other)
       case NothingAfterSign(name) => name in flags.valued && signed && |arg| == |name| + 1
       case TakesNoValue(name) => name !in flags.valued && name in flags.bare && signed
       case NotTaken(name) => name !in flags.valued && name !in flags.bare
  }

  lemma RefusalExplains(flags: Flags, arg: Str, next: Option<Str>, e: Refusal)
    requires TakeOne(flags, arg, next) == Failure(e)
    ensures Explains(flags, arg, next, e)
  {
  }

  lemma ExplainedIsRefused(flags: Flags, arg: Str, next: Option<Str>, e: Refusal)
    requires Explains(flags, arg, next, e)
    ensures TakeOne(flags, arg, next) == Failure(e)
  {
    NamesOne(arg, e.name);
  }

  lemma ExplainedIsFaulty(flags: Flags, args: seq<Str>, e: Refusal)
    requires args != [] && Explains(flags, args[0], After(args, 0), e)
    ensures Faulty(flags, args, e)
  {
    var arg := args[0];
    NamesOne(arg, e.name);
    match e
    case NothingFollowed(name) =>
      assert args == [arg];
    case NothingAfterSign(name) =>
      assert arg == name + [EQUALS];
    case TakesNoValue(name) =>
      assert name + [EQUALS] <= arg;
    case _ =>
  }

  lemma FaultyIsExplained(flags: Flags, args: seq<Str>, e: Refusal)
    requires Sound(flags) && args != [] && Faulty(flags, args, e)
    ensures Explains(flags, args[0], After(args, 0), e)
  {
    var arg := args[0];
    NamesOne(arg, e.name);
    if !e.NotTaken? {
      NameKind(flags, arg, e.name);
    }
    match e
    case NothingAfterSign(name) =>
      assert name + [EQUALS] <= arg && arg != name;
    case TakesNoValue(name) =>
      assert arg != name;
    case _ =>
  }

  lemma RefusedIffFaulty(flags: Flags, args: seq<Str>, e: Refusal)
    requires Sound(flags) && args != []
    ensures Take(flags, args) == Failure(e) <==> Faulty(flags, args, e)
  {
    if Faulty(flags, args, e) {
      FaultyIsExplained(flags, args, e);
      ExplainedIsRefused(flags, args[0], After(args, 0), e);
    } else if Take(flags, args) == Failure(e) {
      RefusalExplains(flags, args[0], After(args, 0), e);
      ExplainedIsFaulty(flags, args, e);
    }
  }

  /** After these proper units no unit starts, for this reason. */
  predicate FaultAfter(flags: Flags, forms: seq<Form>, rest: seq<Str>, args: seq<Str>, e: Refusal) {
    AllProper(flags, forms) && args == WrittenAll(forms) + rest && rest != [] && Faulty(flags, rest, e)
  }

  lemma FaultLater(flags: Flags, args: seq<Str>, n: nat, f: Form, forms: seq<Form>, rest: seq<Str>, e: Refusal)
    requires n <= |args| && Proper(flags, f) && Written(f) == args[..n] && FaultAfter(flags, forms, rest, args[n..], e)
    ensures FaultAfter(flags, [f] + forms, rest, args, e)
  {
    ProperInFront(flags, f, forms);
    assert Written(f) + WrittenAll(forms) + rest == Written(f) + (WrittenAll(forms) + rest);
    assert args == args[..n] + args[n..];
  }

  lemma RefusedLater(flags: Flags, args: seq<Str>, e: Refusal)
    requires args != [] && Items(flags, args) == Failure(e) && Take(flags, args).Success?
    ensures Items(flags, args[Take(flags, args).value.width..]) == Failure(e)
  {
  }

  lemma {:induction false} FirstFault(flags: Flags, args: seq<Str>, e: Refusal) returns (forms: seq<Form>, rest: seq<Str>)
    requires Sound(flags) && Items(flags, args) == Failure(e)
    ensures FaultAfter(flags, forms, rest, args, e)
    decreases |args|
  {
    if Take(flags, args).Failure? {
      RefusedIffFaulty(flags, args, e);
      forms, rest := [], args;
      assert WrittenAll([]) + args == args;
    } else {
      var n := Take(flags, args).value.width;
      RefusedLater(flags, args, e);
      var first := FormTaken(flags, args);
      var more;
      more, rest := FirstFault(flags, args[n..], e);
      forms := [first] + more;
      FaultLater(flags, args, n, first, more, rest, e);
    }
  }

  /** A line is refused for a reason exactly when, after proper units, no unit starts, for that reason. */
  lemma RefusedIffFault(flags: Flags, args: seq<Str>, e: Refusal)
    requires Sound(flags)
    ensures Scanned(flags, args) == Failure(e) <==>
              exists forms, rest :: FaultAfter(flags, forms, rest, args, e)
  {
    if Scanned(flags, args) == Failure(e) {
      var forms, rest := FirstFault(flags, args, e);
    }
    forall forms, rest | FaultAfter(flags, forms, rest, args, e) ensures Scanned(flags, args) == Failure(e) {
      ProperUnitsScan(flags, forms);
      ItemsGoOn(flags, WrittenAll(forms), rest);
      RefusedIffFaulty(flags, rest, e);
    }
  }

  // ---- main results ----

  /** Neither both words nor both the same value flag. */
  predicate Independent(a: Item, b: Item) {
    !(a.Word? && b.Word?) && !(a.Value? && b.Value? && a.name == b.name)
  }

  lemma AddCommutes(line: Line, a: Item, b: Item)
    requires Independent(a, b)
    ensures Add(Add(line, a), b) == Add(Add(line, b), a)
  {
  }

  lemma {:induction false} CollectGoesOn(line: Line, a: seq<Item>, b: seq<Item>)
    ensures Collect(line, a + b) == Collect(Collect(line, a), b)
    decreases |a|
  {
    if a == [] {
      assert a + b == b;
    } else {
      CollectGoesOn(Add(line, a[0]), a[1..], b);
      assert (a + b)[1..] == a[1..] + b;
    }
  }

  /** After a complete beginning, scanning goes on from what has been collected. */
  lemma ScannedGoesOn(flags: Flags, before: seq<Str>, after: seq<Str>)
    requires Items(flags, before).Success?
    ensures Scanned(flags, before + after)
         == Collected(Collect(NOTHING, Items(flags, before).value), Items(flags, after))
  {
    ItemsGoOn(flags, before, after);
    if Items(flags, after).Success? {
      CollectGoesOn(NOTHING, Items(flags, before).value, Items(flags, after).value);
    }
  }

  lemma CollectedWritten(flags: Flags, line: Line, f: Form, rest: seq<Str>)
    requires Sound(flags) && Proper(flags, f)
    ensures Collected(line, Items(flags, Written(f) + rest)) == Collected(Add(line, ItemOf(f)), Items(flags, rest))
  {
    TakeWritten(flags, f, rest);
    OneUnit(flags, line, Written(f) + rest);
  }

  /** Two neighbouring units that are independent may change places, whatever stands before and after them. */
  lemma NeighboursCommute(flags: Flags, before: seq<Str>, f: Form, g: Form, after: seq<Str>)
    requires Sound(flags) && Items(flags, before).Success?
    requires Proper(flags, f) && Proper(flags, g) && Independent(ItemOf(f), ItemOf(g))
    ensures Scanned(flags, before + (Written(f) + (Written(g) + after)))
         == Scanned(flags, before + (Written(g) + (Written(f) + after)))
  {
    var line := Collect(NOTHING, Items(flags, before).value);
    ScannedGoesOn(flags, before, Written(f) + (Written(g) + after));
    ScannedGoesOn(flags, before, Written(g) + (Written(f) + after));
    CollectedWritten(flags, line, f, Written(g) + after);
    CollectedWritten(flags, line, g, Written(f) + after);
    CollectedWritten(flags, Add(line, ItemOf(f)), g, after);
    CollectedWritten(flags, Add(line, ItemOf(g)), f, after);
    AddCommutes(line, ItemOf(f), ItemOf(g));
  }

  lemma WrittenFirst(forms: seq<Form>, after: seq<Str>)
    requires forms != []
    ensures WrittenAll(forms) + after == Written(forms[0]) + (WrittenAll(forms[1..]) + after)
  {
  }

  /** So one unit may be moved across any number of units it is independent of. */
  lemma {:induction false} UnitMovesAcross(flags: Flags, line: Line, f: Form, others: seq<Form>, after: seq<Str>)
    requires Sound(flags) && Proper(flags, f) && AllProper(flags, others)
    requires forall i :: 0 <= i < |others| ==> Independent(ItemOf(f), ItemOf(others[i]))
    ensures Collected(line, Items(flags, Written(f) + (WrittenAll(others) + after)))
         == Collected(line, Items(flags, WrittenAll(others) + (Written(f) + after)))
    decreases |others|
  {
    if others == [] {
      assert [] + after == after && [] + (Written(f) + after) == Written(f) + after;
    } else {
      var g, more := others[0], others[1..];
      WrittenFirst(others, after);
      WrittenFirst(others, Written(f) + after);
      UnitMovesAcross(flags, Add(line, ItemOf(g)), f, more, after);
      CrossOne(flags, line, f, g, WrittenAll(more) + after, WrittenAll(more) + (Written(f) + after));
    }
  }

  /** Past the first of them, when past the others is known. */
  lemma CrossOne(flags: Flags, line: Line, f: Form, g: Form, rest: seq<Str>, moved: seq<Str>)
    requires Sound(flags) && Proper(flags, f) && Proper(flags, g) && Independent(ItemOf(f), ItemOf(g))
    requires Collected(Add(line, ItemOf(g)), Items(flags, Written(f) + rest))
          == Collected(Add(line, ItemOf(g)), Items(flags, moved))
    ensures Collected(line, Items(flags, Written(f) + (Written(g) + rest)))
         == Collected(line, Items(flags, Written(g) + moved))
  {
    CollectedWritten(flags, line, f, Written(g) + rest);
    CollectedWritten(flags, Add(line, ItemOf(f)), g, rest);
    AddCommutes(line, ItemOf(f), ItemOf(g));
    CollectedWritten(flags, Add(line, ItemOf(g)), f, rest);
    CollectedWritten(flags, line, g, moved);
  }

  lemma PlaceDoesNotMatter(flags: Flags, before: seq<Str>, f: Form, others: seq<Form>, after: seq<Str>)
    requires Sound(flags) && Items(flags, before).Success? && Proper(flags, f) && AllProper(flags, others)
    requires forall i :: 0 <= i < |others| ==> Independent(ItemOf(f), ItemOf(others[i]))
    ensures Scanned(flags, before + (Written(f) + (WrittenAll(others) + after)))
         == Scanned(flags, before + (WrittenAll(others) + (Written(f) + after)))
  {
    ScannedGoesOn(flags, before, Written(f) + (WrittenAll(others) + after));
    ScannedGoesOn(flags, before, WrittenAll(others) + (Written(f) + after));
    UnitMovesAcross(flags, Collect(NOTHING, Items(flags, before).value), f, others, after);
  }

  /** A value that is not empty and no flag itself may be given in either form, whatever follows, refusals included. */
  lemma FormsScanAlike(flags: Flags, before: seq<Str>, name: Str, value: Str, after: seq<Str>)
    requires Sound(flags) && Items(flags, before).Success? && name in flags.valued && value != [] && !Dashed(value)
    ensures Scanned(flags, before + (Written(Spaced(name, value)) + after))
         == Scanned(flags, before + (Written(Signed(name, value)) + after))
  {
    var line := Collect(NOTHING, Items(flags, before).value);
    ScannedGoesOn(flags, before, Written(Spaced(name, value)) + after);
    ScannedGoesOn(flags, before, Written(Signed(name, value)) + after);
    CollectedWritten(flags, line, Spaced(name, value), after);
    CollectedWritten(flags, line, Signed(name, value), after);
  }

  /** Before a complete rest of the line, `--flag v` and `--flag=v` come to the same exactly when the value is not empty and no flag itself. */
  lemma FormsScanAlikeIff(flags: Flags, before: seq<Str>, name: Str, value: Str, after: seq<Str>)
    requires Sound(flags) && Items(flags, before).Success? && Items(flags, after).Success? && name in flags.valued
    ensures Scanned(flags, before + (Written(Spaced(name, value)) + after))
         == Scanned(flags, before + (Written(Signed(name, value)) + after))
       <==> value != [] && !Dashed(value)
  {
    var line := Collect(NOTHING, Items(flags, before).value);
    var spaced, signed := Written(Spaced(name, value)) + after, Written(Signed(name, value)) + after;
    ScannedGoesOn(flags, before, spaced);
    ScannedGoesOn(flags, before, signed);
    SignAfterName(name, value);
    if Dashed(value) {
      OneUnit(flags, line, spaced);
      assert spaced[0] == name && spaced[1] == value;
      CollectedWritten(flags, line, Signed(name, value), after);
    } else {
      CollectedWritten(flags, line, Spaced(name, value), after);
      if value == [] {
        OneUnit(flags, line, signed);
        assert signed[0] == name + [EQUALS] + [];
        assert signed[0][..|name|] == name && signed[0][|name| + 1..] == [];
      } else {
        CollectedWritten(flags, line, Signed(name, value), after);
      }
    }
  }
}
