/**
 How a Task is named: the opening message cut short, and a summarizer's answer tidied into a title or turned down.
 */
module TaskTitle {
  import opened Wrappers
  import opened Text
  import opened Framing

  // ---- a name out of the prompt ----

  const PROMPT_TITLE_MAX: nat := 80

  function Sliced(s: Str, n: nat): Str {
    if n <= |s| then s[..n] else s
  }

  function TitleFromPrompt(prompt: Str): Str {
    Trim(Sliced(Trim(prompt), PROMPT_TITLE_MAX))
  }

  /** The name is short and trimmed, and naming a Task after its own name changes nothing. */
  lemma PromptTitleIsStable(prompt: Str)
    ensures var title := TitleFromPrompt(prompt);
            && |title| <= PROMPT_TITLE_MAX && IsTrimmed(title)
            && TitleFromPrompt(title) == title
  {
    var cut := Sliced(Trim(prompt), PROMPT_TITLE_MAX);
    TrimTrims(cut);
    TrimmedAlready(Trim(cut));
  }

  // ---- taking wrapping off ----

  datatype Wrapper = Wrapper(open: Str, close: Str)

  const WRAPPERS: seq<Wrapper> := [
    Wrapper([0x22], [0x22]), Wrapper([0x27], [0x27]), Wrapper([0x60], [0x60]), Wrapper([0x201C], [0x201D]),
    Wrapper([0x2018], [0x2019]), Wrapper([0xAB], [0xBB]), Wrapper([0x2A, 0x2A], [0x2A, 0x2A]), Wrapper([0x2A], [0x2A])]

  predicate NoneEmpty(wrappers: seq<Wrapper>) {
    forall i :: 0 <= i < |wrappers| ==> wrappers[i].open != [] && wrappers[i].close != []
  }

  predicate Wraps(w: Wrapper, s: Str) {
    |s| >= |w.open| + |w.close| && w.open <= s && s[|s| - |w.close|..] == w.close
  }

  function Inside(w: Wrapper, s: Str): Str
    requires Wraps(w, s)
  {
    Trim(s[|w.open|..|s| - |w.close|])
  }

  /** The first pair in the list that wraps the text, or the number of pairs. */
  function FirstWrapper(wrappers: seq<Wrapper>, s: Str): (i: nat)
    ensures i <= |wrappers|
    ensures i < |wrappers| ==> Wraps(wrappers[i], s)
    ensures forall j :: 0 <= j < i ==> !Wraps(wrappers[j], s)
  {
    FirstWrapperFrom(wrappers, s, 0)
  }

  function FirstWrapperFrom(wrappers: seq<Wrapper>, s: Str, from: nat): (i: nat)
    requires from <= |wrappers|
    ensures from <= i <= |wrappers|
    ensures i < |wrappers| ==> Wraps(wrappers[i], s)
    ensures forall j :: from <= j < i ==> !Wraps(wrappers[j], s)
    decreases |wrappers| - from
  {
    if from == |wrappers| || Wraps(wrappers[from], s) then from else FirstWrapperFrom(wrappers, s, from + 1)
  }

  function Unwrapped(wrappers: seq<Wrapper>, s: Str): Str
    requires NoneEmpty(wrappers)
    decreases |s|
  {
    var i := FirstWrapper(wrappers, s);
    if i == |wrappers| then s
    else
      InsideIsShorter(wrappers[i], s);
      Unwrapped(wrappers, Inside(wrappers[i], s))
  }

  lemma InsideIsShorter(w: Wrapper, s: Str)
    requires Wraps(w, s) && w.open != [] && w.close != []
    ensures |Inside(w, s)| < |s|
  {
    TrimTrims(s[|w.open|..|s| - |w.close|]);
  }

  method Unwrap(wrappers: seq<Wrapper>, text: Str) returns (current: Str)
    requires NoneEmpty(wrappers)
    ensures current == Unwrapped(wrappers, text)
  {
    current := text;
    var peeled := true;
    while peeled
      invariant Unwrapped(wrappers, current) == Unwrapped(wrappers, text)
      invariant !peeled ==> FirstWrapper(wrappers, current) == |wrappers|
      decreases peeled, |current|
    {
      peeled := false;
      var i := 0;
      while i < |wrappers|
        invariant 0 <= i <= |wrappers|
        invariant forall j :: 0 <= j < i ==> !Wraps(wrappers[j], current)
      {
        if Wraps(wrappers[i], current) {
          assert FirstWrapper(wrappers, current) == i;
          InsideIsShorter(wrappers[i], current);
          current := Inside(wrappers[i], current);
          peeled := true;
          break;
        }
        i := i + 1;
      }
    }
  }

  /** `part` is a stretch of `whole`. */
  ghost predicate Within(part: Str, whole: Str) {
    exists i: nat :: StartsAt(whole, part, i)
  }

  lemma SliceOfSlice(s: Str, j: nat, m: nat, i: nat, n: nat)
    requires j + m <= |s| && i + n <= m
    ensures s[j..j + m][i..i + n] == s[j + i..j + i + n]
  {
    var a, b := s[j..j + m][i..i + n], s[j + i..j + i + n];
    forall k | 0 <= k < n ensures a[k] == b[k] {
      assert a[k] == s[j..j + m][i + k] == s[j + i + k];
    }
  }

  lemma WithinWithin(a: Str, b: Str, c: Str)
    requires Within(a, b) && Within(b, c)
    ensures Within(a, c)
  {
    var i: nat :| StartsAt(b, a, i);
    var j: nat :| StartsAt(c, b, j);
    SliceOfSlice(c, j, |b|, i, |a|);
    assert StartsAt(c, a, j + i);
  }

  lemma InsideIsWithin(w: Wrapper, s: Str)
    requires Wraps(w, s)
    ensures Within(Inside(w, s), s)
  {
    var core := s[|w.open|..|s| - |w.close|];
    var k := TrimIsWithin(core);
    SliceOfSlice(s, |w.open|, |core|, k, |Trim(core)|);
    assert s[|w.open|..|w.open| + |core|] == core;
    assert StartsAt(s, Trim(core), |w.open| + k);
  }

  /** What is left is wrapped by no pair. */
  lemma {:induction false} UnwrappedIsBare(wrappers: seq<Wrapper>, s: Str)
    requires NoneEmpty(wrappers)
    ensures forall i :: 0 <= i < |wrappers| ==> !Wraps(wrappers[i], Unwrapped(wrappers, s))
    decreases |s|
  {
    var i := FirstWrapper(wrappers, s);
    if i < |wrappers| {
      InsideIsShorter(wrappers[i], s);
      UnwrappedIsBare(wrappers, Inside(wrappers[i], s));
    }
  }

  /** It is a stretch of the text, and trimmed if the text was. */
  lemma {:induction false} UnwrappedIsWithin(wrappers: seq<Wrapper>, s: Str)
    requires NoneEmpty(wrappers)
    ensures Within(Unwrapped(wrappers, s), s)
    ensures IsTrimmed(s) ==> IsTrimmed(Unwrapped(wrappers, s))
    decreases |s|
  {
    var i := FirstWrapper(wrappers, s);
    if i == |wrappers| {
      assert StartsAt(s, s, 0);
    } else {
      var w := wrappers[i];
      InsideIsShorter(w, s);
      UnwrappedIsWithin(wrappers, Inside(w, s));
      TrimTrims(s[|w.open|..|s| - |w.close|]);
      InsideIsWithin(w, s);
      WithinWithin(Unwrapped(wrappers, s), Inside(w, s), s);
    }
  }

  /** So unwrapping again changes nothing. */
  lemma UnwrappingTwice(wrappers: seq<Wrapper>, s: Str)
    requires NoneEmpty(wrappers)
    ensures Unwrapped(wrappers, Unwrapped(wrappers, s)) == Unwrapped(wrappers, s)
  {
    UnwrappedIsBare(wrappers, s);
  }

  lemma TrimIsWithin(s: Str) returns (k: nat)
    ensures k + |Trim(s)| <= |s| && s[k..k + |Trim(s)|] == Trim(s)
  {
    k := TrimStartDrops(s);
    TrimEndTrims(TrimStart(s));
    var t := Trim(s);
    assert t == TrimStart(s)[..|t|];
  }

  lemma {:induction false} TrimStartDrops(s: Str) returns (k: nat)
    ensures k <= |s| && TrimStart(s) == s[k..]
  {
    if s != [] && IsSpace(s[0]) {
      k := TrimStartDrops(s[1..]);
      k := k + 1;
    } else {
      k := 0;
    }
  }

  lemma WrappersAreNotEmpty()
    ensures NoneEmpty(WRAPPERS)
  {
  }

  // ---- a label in front ----

  const STAR: Unit := 0x2A

  function SkipStars(s: Str): (r: Str)
    ensures |r| <= |s|
  {
    if s != [] && s[0] == STAR then SkipStars(s[1..]) else s
  }

  function Lower(c: Unit): Unit {
    if 0x41 <= c <= 0x5A then c + 0x20 else c
  }

  predicate StartsWithWord(s: Str, word: Str) {
    |word| <= |s| && forall i :: 0 <= i < |word| ==> Lower(s[i]) == word[i]
  }

  /** `Title:` or `Name -`, emphasised or not; nothing when there is no such label. */
  function AfterLabel(s: Str): Option<Str> {
    var t := TrimStart(SkipStars(s));
    var rest := if StartsWithWord(t, Ascii("title")) then Some(t[5..])
                else if StartsWithWord(t, Ascii("name")) then Some(t[4..])
                else None;
    if rest.None? then None
    else
      var mark := TrimStart(SkipStars(TrimStart(rest.value)));
      if mark != [] && (mark[0] == COLON || mark[0] == 0x2013 || mark[0] == 0x2D) then
        Some(TrimStart(SkipStars(TrimStart(mark[1..]))))
      else None
  }

  function WithoutLabel(s: Str): Str {
    if AfterLabel(s).Some? then AfterLabel(s).value else s
  }

  // ---- tidying ----

  /** `.replace(/\s+/g, " ")` */
  function Collapse(s: Str): Str
    decreases |s|
  {
    if s == [] then []
    else if !IsSpace(s[0]) then [s[0]] + Collapse(s[1..])
    else [BLANK] + Collapse(TrimStart(s))
  }

  predicate IsClosing(c: Unit) {
    c == 0x2E || c == COMMA || c == 0x3B || c == COLON || c == 0x2026
  }

  /** `.replace(/[.,;:…]+$/, "")` */
  function WithoutClosing(s: Str): Str {
    if s != [] && IsClosing(s[|s| - 1]) then WithoutClosing(s[..|s| - 1]) else s
  }

  const SUMMARY_TITLE_MAX: nat := 60
  const SUMMARY_REJECT_OVER: nat := 120

  function FirstLine(lines: seq<Str>): Option<Str> {
    if lines == [] then None
    else if Trim(lines[0]) != [] then Some(Trim(lines[0]))
    else FirstLine(lines[1..])
  }

  /** The answer's first line that says anything, without wrapping, label, doubled blanks and closing punctuation. */
  function Tidied(wrappers: seq<Wrapper>, line: Str): Str
    requires NoneEmpty(wrappers)
  {
    var inner := Trim(WithoutLabel(Unwrapped(wrappers, line)));
    Trim(WithoutClosing(Collapse(Unwrapped(wrappers, inner))))
  }

  function LastBlank(s: Str): (i: int)
    ensures -1 <= i < |s|
    ensures i >= 0 ==> s[i] == BLANK
    ensures forall j :: i < j < |s| ==> s[j] != BLANK
  {
    if s == [] then -1
    else if s[|s| - 1] == BLANK then |s| - 1
    else LastBlank(s[..|s| - 1])
  }

  /** A tidied text as a title: as it is, cut at the last word that fits, or not at all. */
  function Fitted(title: Str): Option<Str> {
    if title == [] || |title| > SUMMARY_REJECT_OVER then None
    else if |title| <= SUMMARY_TITLE_MAX then Some(title)
    else
      var cut := title[..SUMMARY_TITLE_MAX + 1];
      var boundary := LastBlank(cut);
      var shortened := Trim(WithoutClosing(if boundary == -1 then cut[..SUMMARY_TITLE_MAX] else cut[..boundary]));
      if shortened == [] then None else Some(shortened)
  }

  function CleanSummaryTitle(wrappers: seq<Wrapper>, raw: Str): Option<Str>
    requires NoneEmpty(wrappers)
  {
    var p := Split(raw, [NEWLINE]);
    var line := FirstLine(p.blocks + [p.tail]);
    if line.None? then None else Fitted(Tidied(wrappers, line.value))
  }

  // ---- what a title is ----

  /** The only white space is single blanks. */
  predicate SingleSpaced(s: Str) {
    forall i :: 0 <= i < |s| && IsSpace(s[i]) ==> s[i] == BLANK && (i + 1 < |s| ==> !IsSpace(s[i + 1]))
  }

  lemma {:induction false} CollapseIsSingleSpaced(s: Str)
    ensures SingleSpaced(Collapse(s))
    ensures s != [] && !IsSpace(s[0]) ==> Collapse(s) != [] && Collapse(s)[0] == s[0]
    decreases |s|
  {
    if s != [] {
      if !IsSpace(s[0]) {
        CollapseIsSingleSpaced(s[1..]);
        SingleSpacedInFront(s[0], Collapse(s[1..]));
      } else {
        TrimStartTrims(s[1..]);
        TrimStartTrims(s);
        CollapseIsSingleSpaced(TrimStart(s));
        var more := Collapse(TrimStart(s));
        assert more != [] ==> !IsSpace(more[0]);
        SingleSpacedInFront(BLANK, more);
      }
    }
  }

  lemma SingleSpacedInFront(c: Unit, s: Str)
    requires SingleSpaced(s) && (IsSpace(c) ==> c == BLANK && (s != [] ==> !IsSpace(s[0])))
    ensures SingleSpaced([c] + s)
  {
    var t := [c] + s;
    forall i | 0 <= i < |t| && IsSpace(t[i]) ensures t[i] == BLANK && (i + 1 < |t| ==> !IsSpace(t[i + 1])) {
      if i > 0 {
        assert t[i] == s[i - 1] && (i + 1 < |t| ==> t[i + 1] == s[i]);
      }
    }
  }

  lemma {:induction false} WithoutClosingIsPrefix(s: Str)
    ensures WithoutClosing(s) <= s
  {
    if s != [] && IsClosing(s[|s| - 1]) {
      WithoutClosingIsPrefix(s[..|s| - 1]);
    }
  }

  lemma StretchIsSingleSpaced(s: Str, k: nat, n: nat)
    requires SingleSpaced(s) && k <= n <= |s|
    ensures SingleSpaced(s[k..n])
  {
    var t := s[k..n];
    forall i | 0 <= i < |t| && IsSpace(t[i]) ensures t[i] == BLANK && (i + 1 < |t| ==> !IsSpace(t[i + 1])) {
      assert t[i] == s[k + i] && (i + 1 < |t| ==> t[i + 1] == s[k + i + 1]);
    }
  }

  lemma TidiedIsTidy(wrappers: seq<Wrapper>, line: Str)
    requires NoneEmpty(wrappers)
    ensures var title := Tidied(wrappers, line); IsTrimmed(title) && SingleSpaced(title)
  {
    var inner := Trim(WithoutLabel(Unwrapped(wrappers, line)));
    var collapsed := Collapse(Unwrapped(wrappers, inner));
    CollapseIsSingleSpaced(Unwrapped(wrappers, inner));
    WithoutClosingIsPrefix(collapsed);
    var s := WithoutClosing(collapsed);
    assert s == collapsed[0..|s|];
    StretchIsSingleSpaced(collapsed, 0, |s|);
    TrimTrims(s);
    var k := TrimIsWithin(s);
    StretchIsSingleSpaced(s, k, k + |Trim(s)|);
  }

  /** Trimming a prefix of a trimmed text leaves a prefix. */
  lemma TrimmedPrefix(s: Str, title: Str)
    requires IsTrimmed(title) && s <= title
    ensures Trim(s) <= title && |Trim(s)| <= |s| && IsTrimmed(Trim(s))
  {
    TrimTrims(s);
    TrimEndTrims(s);
    assert TrimStart(s) == s;
  }

  predicate IsTitle(t: Str) {
    1 <= |t| <= SUMMARY_TITLE_MAX && IsTrimmed(t) && SingleSpaced(t) && NEWLINE !in t
  }

  lemma NoNewline(t: Str)
    requires SingleSpaced(t)
    ensures NEWLINE !in t
  {
    if NEWLINE in t {
      var i :| 0 <= i < |t| && t[i] == NEWLINE;
      assert IsSpace(t[i]);
    }
  }

  /** What comes of a tidied text: a title that is a prefix of it, ending no later than its last blank that fits. */
  lemma FittedIsTitle(title: Str)
    requires IsTrimmed(title) && SingleSpaced(title) && Fitted(title).Some?
    ensures var t := Fitted(title).value;
            && IsTitle(t) && t <= title
            && (|title| <= SUMMARY_TITLE_MAX ==> t == title)
            && (|title| > SUMMARY_TITLE_MAX ==>
                  var boundary := LastBlank(title[..SUMMARY_TITLE_MAX + 1]);
                  boundary >= 0 ==> |t| <= boundary)
  {
    var t := Fitted(title).value;
    if |title| > SUMMARY_TITLE_MAX {
      var cut := title[..SUMMARY_TITLE_MAX + 1];
      var boundary := LastBlank(cut);
      var piece := if boundary == -1 then cut[..SUMMARY_TITLE_MAX] else cut[..boundary];
      WithoutClosingIsPrefix(piece);
      TrimmedPrefix(WithoutClosing(piece), title);
    }
    assert t == title[0..|t|];
    StretchIsSingleSpaced(title, 0, |t|);
    NoNewline(t);
  }

  // ---- main result ----

  /** Every title an answer gives is short, trimmed, single-spaced and one line, and a prefix of the tidied first line. */
  lemma CleanTitleIsTitle(wrappers: seq<Wrapper>, raw: Str)
    requires NoneEmpty(wrappers) && CleanSummaryTitle(wrappers, raw).Some?
    ensures var p := Split(raw, [NEWLINE]);
            var line := FirstLine(p.blocks + [p.tail]);
            var t := CleanSummaryTitle(wrappers, raw).value;
            && IsTitle(t) && line.Some?
            && var title := Tidied(wrappers, line.value);
               && t <= title
               && (|title| <= SUMMARY_TITLE_MAX ==> t == title)
               && (|title| > SUMMARY_TITLE_MAX ==>
                     var boundary := LastBlank(title[..SUMMARY_TITLE_MAX + 1]);
                     boundary >= 0 ==> |t| <= boundary)
  {
    var p := Split(raw, [NEWLINE]);
    var line := FirstLine(p.blocks + [p.tail]).value;
    TidiedIsTidy(wrappers, line);
    FittedIsTitle(Tidied(wrappers, line));
  }
}
