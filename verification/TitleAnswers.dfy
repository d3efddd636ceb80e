/**
 Which answers give a title, and what becomes of everything that is not the title: blank lines, wrapping, a label, runs of
 white space and closing punctuation.
 */
module TitleAnswers {
  import opened Wrappers
  import opened Text
  import opened Framing
  import opened TaskTitle

  // ---- a name out of the prompt ----

  /** The name is the trimmed prompt up to its limit: all of it where it fits, and never nothing where it says something. */
  lemma PromptTitleIsPrefix(prompt: Str)
    ensures var trimmed, title := Trim(prompt), TitleFromPrompt(prompt);
            && title <= trimmed && |title| <= PROMPT_TITLE_MAX
            && (|trimmed| <= PROMPT_TITLE_MAX ==> title == trimmed)
            && (|trimmed| > PROMPT_TITLE_MAX ==> AllSpace(trimmed[|title|..PROMPT_TITLE_MAX]))
            && (trimmed != [] ==> title != [])
  {
    var trimmed := Trim(prompt);
    TrimTrims(prompt);
    var cut := Sliced(trimmed, PROMPT_TITLE_MAX);
    var title := TitleFromPrompt(prompt);
    TrimKeepsStart(cut);
    if |trimmed| <= PROMPT_TITLE_MAX {
      TrimmedAlready(trimmed);
    } else {
      assert trimmed[|title|..PROMPT_TITLE_MAX] == cut[|title|..];
    }
  }

  // ---- the first line that says anything ----

  lemma {:induction false} FirstLineIs(lines: seq<Str>)
    ensures FirstLine(lines).None? <==> forall i :: 0 <= i < |lines| ==> Trim(lines[i]) == []
    ensures FirstLine(lines).Some? ==>
              exists i :: 0 <= i < |lines| && FirstLine(lines).value == Trim(lines[i]) != []
                          && forall j :: 0 <= j < i ==> Trim(lines[j]) == []
  {
    if lines != [] && Trim(lines[0]) == [] {
      var rest := lines[1..];
      FirstLineIs(rest);
      assert forall i :: 1 <= i < |lines| ==> lines[i] == rest[i - 1];
      if FirstLine(rest).Some? {
        var i :| 0 <= i < |rest| && FirstLine(rest).value == Trim(rest[i]) != []
                 && forall j :: 0 <= j < i ==> Trim(rest[j]) == [];
        assert Trim(lines[i + 1]) == FirstLine(lines).value;
      }
    }
  }

  // ---- wrapping ----

  /** What stands between the first pair that wraps a text is unwrapped further; where none does, nothing is taken off. */
  lemma UnwrappedIs(wrappers: seq<Wrapper>, s: Str)
    requires NoneEmpty(wrappers)
    ensures (forall i :: 0 <= i < |wrappers| ==> !Wraps(wrappers[i], s)) ==> Unwrapped(wrappers, s) == s
    ensures forall i, inner: Str ::
              0 <= i < |wrappers| && s == wrappers[i].open + inner + wrappers[i].close
              && (forall j :: 0 <= j < i ==> !Wraps(wrappers[j], s)) ==>
                Unwrapped(wrappers, s) == Unwrapped(wrappers, Trim(inner))
  {
    forall i, inner: Str | 0 <= i < |wrappers| && s == wrappers[i].open + inner + wrappers[i].close
                           && (forall j :: 0 <= j < i ==> !Wraps(wrappers[j], s))
      ensures Unwrapped(wrappers, s) == Unwrapped(wrappers, Trim(inner))
    {
      LayerComesOff(wrappers, i, inner);
    }
  }

  lemma LayerComesOff(wrappers: seq<Wrapper>, i: nat, inner: Str)
    requires NoneEmpty(wrappers) && i < |wrappers|
    requires forall j :: 0 <= j < i ==> !Wraps(wrappers[j], wrappers[i].open + inner + wrappers[i].close)
    ensures Unwrapped(wrappers, wrappers[i].open + inner + wrappers[i].close) == Unwrapped(wrappers, Trim(inner))
  {
    var w := wrappers[i];
    var s := w.open + inner + w.close;
    assert s[|s| - |w.close|..] == w.close;
    assert s[|w.open|..|s| - |w.close|] == inner;
    assert Wraps(w, s) && FirstWrapper(wrappers, s) == i;
  }

  // ---- a label ----

  predicate AllStars(s: Str) {
    forall i :: 0 <= i < |s| ==> s[i] == STAR
  }

  /** `Title` or `Name`, in capitals or not. */
  predicate IsLabelWord(s: Str) {
    || (|s| == 5 && StartsWithWord(s, Ascii("title")))
    || (|s| == 4 && StartsWithWord(s, Ascii("name")))
  }

  predicate IsMark(c: Unit) {
    c == COLON || c == 0x2013 || c == 0x2D
  }

  /** Stars and white space, in that order or the other, and then something that is neither. */
  predicate StartsBare(s: Str) {
    s != [] ==> s[0] != STAR && !IsSpace(s[0])
  }

  lemma {:induction false} SkipStarsIs(s: Str) returns (k: nat)
    ensures k <= |s| && AllStars(s[..k]) && SkipStars(s) == s[k..] && (k < |s| ==> s[k] != STAR)
  {
    k := 0;
    if s != [] && s[0] == STAR {
      k := SkipStarsIs(s[1..]);
      assert s[..k + 1] == [s[0]] + s[1..][..k];
      k := k + 1;
    }
  }

  lemma {:induction false} StarsSkipped(stars: Str, rest: Str)
    requires AllStars(stars) && (rest != [] ==> rest[0] != STAR)
    ensures SkipStars(stars + rest) == rest
    decreases |stars|
  {
    if stars == [] {
      assert stars + rest == rest;
    } else {
      assert (stars + rest)[1..] == stars[1..] + rest;
      StarsSkipped(stars[1..], rest);
    }
  }

  lemma {:induction false} SpaceTrimmed(space: Str, rest: Str)
    requires AllSpace(space) && (rest != [] ==> !IsSpace(rest[0]))
    ensures TrimStart(space + rest) == rest
    decreases |space|
  {
    if space == [] {
      assert space + rest == rest;
    } else {
      assert (space + rest)[1..] == space[1..] + rest;
      SpaceTrimmed(space[1..], rest);
    }
  }

  /** White space, stars and white space are passed over. */
  lemma PaddingPassed(before: Str, stars: Str, after: Str, rest: Str)
    requires AllSpace(before) && AllStars(stars) && AllSpace(after) && StartsBare(rest)
    ensures TrimStart(SkipStars(TrimStart(before + (stars + (after + rest))))) == rest
  {
    SpaceTrimmed(after, rest);
    if stars == [] {
      assert before + (stars + (after + rest)) == (before + after) + rest;
      SpaceTrimmed(before + after, rest);
      assert [] + rest == rest;
      StarsSkipped([], rest);
      SpaceTrimmed([], rest);
    } else {
      SpaceTrimmed(before, stars + (after + rest));
      SpaceOrRestIsNoStar(after, rest);
      StarsSkipped(stars, after + rest);
    }
  }

  lemma SpaceOrRestIsNoStar(space: Str, rest: Str)
    requires AllSpace(space) && StartsBare(rest)
    ensures space + rest != [] ==> (space + rest)[0] != STAR
  {
  }

  /** The rest of the text after the word, from its mark on. */
  function AfterWord(rest: Str): Option<Str> {
    var mark := TrimStart(SkipStars(TrimStart(rest)));
    if mark != [] && IsMark(mark[0]) then Some(TrimStart(SkipStars(TrimStart(mark[1..])))) else None
  }

  lemma WordFound(word: Str, rest: Str)
    requires IsLabelWord(word)
    ensures AfterLabel(word + rest) == AfterWord(rest)
  {
    var s := word + rest;
    assert SkipStars(s) == s by {
      assert Lower(s[0]) == word[0] || Lower(s[0]) == Lower(word[0]);
    }
    assert TrimStart(s) == s;
    if |word| == 5 {
      assert s[5..] == rest && StartsWithWord(s, Ascii("title"));
    } else {
      assert s[4..] == rest && StartsWithWord(s, Ascii("name"));
      assert Lower(s[0]) == 0x6E && !StartsWithWord(s, Ascii("title"));
    }
  }

  /** Emphasis and blanks around a label. */
  datatype Label = Label(stars: Str, gap: Str, word: Str, gap1: Str, stars1: Str, gap2: Str, mark: Unit,
                         gap3: Str, stars2: Str, gap4: Str)

  predicate IsLabel(l: Label) {
    && AllStars(l.stars) && AllSpace(l.gap) && IsLabelWord(l.word) && AllSpace(l.gap1) && AllStars(l.stars1)
    && AllSpace(l.gap2) && IsMark(l.mark) && AllSpace(l.gap3) && AllStars(l.stars2) && AllSpace(l.gap4)
  }

  /** The label as it is written, in front of a text. */
  function Labelled(l: Label, text: Str): Str {
    l.stars + (l.gap + (l.word + MarkedOff(l, text)))
  }

  function MarkedOff(l: Label, text: Str): Str {
    l.gap1 + (l.stars1 + (l.gap2 + ([l.mark] + (l.gap3 + (l.stars2 + (l.gap4 + text))))))
  }

  lemma LeadingPassed(stars: Str, gap: Str, rest: Str)
    requires AllStars(stars) && AllSpace(gap) && rest != [] && StartsBare(rest)
    ensures AfterLabel(stars + (gap + rest)) == AfterLabel(rest)
  {
    SpaceOrRestIsNoStar(gap, rest);
    StarsSkipped(stars, gap + rest);
    SpaceTrimmed(gap, rest);
    assert SkipStars(rest) == rest && TrimStart(rest) == rest;
  }

  lemma MarkPassed(l: Label, text: Str)
    requires IsLabel(l) && StartsBare(text)
    ensures AfterWord(MarkedOff(l, text)) == Some(text)
  {
    var tail := l.gap3 + (l.stars2 + (l.gap4 + text));
    PaddingPassed(l.gap1, l.stars1, l.gap2, [l.mark] + tail);
    assert ([l.mark] + tail)[1..] == tail;
    PaddingPassed(l.gap3, l.stars2, l.gap4, text);
  }

  /** A label goes, with its emphasis and its mark, and what it stands in front of stays as it is. */
  lemma LabelGoes(l: Label, text: Str)
    requires IsLabel(l) && StartsBare(text)
    ensures WithoutLabel(Labelled(l, text)) == text
  {
    var rest := l.word + MarkedOff(l, text);
    WordStartsBare(l.word, MarkedOff(l, text));
    LeadingPassed(l.stars, l.gap, rest);
    WordFound(l.word, MarkedOff(l, text));
    MarkPassed(l, text);
  }

  lemma WordStartsBare(word: Str, rest: Str)
    requires IsLabelWord(word)
    ensures StartsBare(word + rest)
  {
    var c := word[0];
    assert (word + rest)[0] == c && (Lower(c) == 0x74 || Lower(c) == 0x6E);
  }

  /** Where there is no label nothing goes, and what went was one. */
  lemma OnlyLabelsGo(s: Str) returns (l: Label)
    ensures AfterLabel(s).None? ==> WithoutLabel(s) == s
    ensures AfterLabel(s).Some? ==> IsLabel(l) && s == Labelled(l, WithoutLabel(s))
  {
    l := Label([], [], [], [], [], [], 0, [], [], []);
    if AfterLabel(s).Some? {
      var stars, gap, t := LeadingSplits(s);
      var word, rest := WordSplits(s, t);
      var marked := MarkSplits(rest);
      l := marked.(stars := stars, gap := gap, word := word);
    }
  }

  lemma LeadingSplits(s: Str) returns (stars: Str, gap: Str, t: Str)
    ensures AllStars(stars) && AllSpace(gap) && t == TrimStart(SkipStars(s)) && s == stars + (gap + t)
  {
    var k := SkipStarsIs(s);
    var n := TrimStartIs(s[k..]);
    stars, gap, t := s[..k], s[k..][..n], s[k..][n..];
  }

  lemma WordSplits(s: Str, t: Str) returns (word: Str, rest: Str)
    requires t == TrimStart(SkipStars(s)) && AfterLabel(s).Some?
    ensures IsLabelWord(word) && t == word + rest && AfterWord(rest) == AfterLabel(s)
  {
    var size := if StartsWithWord(t, Ascii("title")) then 5 else 4;
    word, rest := t[..size], t[size..];
  }

  lemma PaddingSplits(s: Str) returns (before: Str, stars: Str, after: Str)
    ensures AllSpace(before) && AllStars(stars) && AllSpace(after)
    ensures s == before + (stars + (after + TrimStart(SkipStars(TrimStart(s)))))
  {
    var k := TrimStartIs(s);
    var n := SkipStarsIs(s[k..]);
    var m := TrimStartIs(s[k..][n..]);
    before, stars, after := s[..k], s[k..][..n], s[k..][n..][..m];
  }

  lemma MarkSplits(rest: Str) returns (l: Label)
    requires AfterWord(rest).Some?
    ensures l.stars == [] && l.gap == [] && l.word == []
    ensures AllSpace(l.gap1) && AllStars(l.stars1) && AllSpace(l.gap2) && IsMark(l.mark)
    ensures AllSpace(l.gap3) && AllStars(l.stars2) && AllSpace(l.gap4)
    ensures rest == MarkedOff(l, AfterWord(rest).value)
  {
    var a, b, c := PaddingSplits(rest);
    var mark := TrimStart(SkipStars(TrimStart(rest)));
    var d, e, f := PaddingSplits(mark[1..]);
    assert mark == [mark[0]] + mark[1..];
    l := Label([], [], [], a, b, c, mark[0], d, e, f);
  }

  // ---- runs of white space ----

  /** The stretches without white space, in order. */
  function Words(s: Str): seq<Str>
    decreases |s|
  {
    if s == [] then []
    else if IsSpace(s[0]) then Words(s[1..])
    else
      var n := WordLength(s);
      [s[..n]] + Words(s[n..])
  }

  function WordLength(s: Str): (n: nat)
    ensures n <= |s| && (s != [] && !IsSpace(s[0]) ==> n > 0)
  {
    if s != [] && !IsSpace(s[0]) then 1 + WordLength(s[1..]) else 0
  }

  lemma {:induction false} TrimStartWords(s: Str)
    ensures Words(TrimStart(s)) == Words(s)
  {
    if s != [] && IsSpace(s[0]) {
      TrimStartWords(s[1..]);
    }
  }

  lemma {:induction false} CollapseKeepsWord(s: Str)
    ensures var n := WordLength(s);
            WordLength(Collapse(s)) == n && n <= |Collapse(s)| && Collapse(s)[..n] == s[..n]
            && Collapse(s)[n..] == Collapse(s[n..])
    decreases |s|
  {
    if s != [] && !IsSpace(s[0]) {
      CollapseKeepsWord(s[1..]);
      var n := WordLength(s[1..]);
      var more := Collapse(s[1..]);
      assert Collapse(s)[1..] == more && ([s[0]] + more)[..n + 1] == [s[0]] + more[..n];
      assert s[..n + 1] == [s[0]] + s[1..][..n] && s[n + 1..] == s[1..][n..];
      assert Collapse(s)[n + 1..] == more[n..];
    }
  }

  /** However the white space ran, the words are the same, in order. */
  lemma {:induction false} CollapseKeepsWords(s: Str)
    ensures Words(Collapse(s)) == Words(s)
    decreases |s|
  {
    if s == [] {
    } else if IsSpace(s[0]) {
      var more := Collapse(TrimStart(s));
      assert Collapse(s) == [BLANK] + more && Collapse(s)[1..] == more;
      TrimStartWords(s);
      CollapseKeepsWords(TrimStart(s));
    } else {
      var n := WordLength(s);
      CollapseKeepsWord(s);
      CollapseKeepsWords(s[n..]);
    }
  }

  // ---- closing punctuation ----

  predicate AllClosing(s: Str) {
    forall i :: 0 <= i < |s| ==> IsClosing(s[i])
  }

  /** The run of closing punctuation at the end goes, and nothing else. */
  lemma {:induction false} WithoutClosingIs(s: Str)
    ensures var r := WithoutClosing(s);
            r <= s && AllClosing(s[|r|..]) && (r != [] ==> !IsClosing(r[|r| - 1]))
  {
    if s != [] && IsClosing(s[|s| - 1]) {
      var front := s[..|s| - 1];
      WithoutClosingIs(front);
      assert s[|WithoutClosing(front)|..] == front[|WithoutClosing(front)|..] + [s[|s| - 1]];
    }
  }

  // ---- which answers give a title ----

  /** What a tidied text that is too long for a title keeps at most: the words that fit, or all that fits of one word. */
  function Piece(title: Str): Str
    requires |title| > SUMMARY_TITLE_MAX
  {
    var boundary := LastBlank(title[..SUMMARY_TITLE_MAX + 1]);
    if boundary == -1 then title[..SUMMARY_TITLE_MAX] else title[..boundary]
  }

  /**
   A tidied text gives no title when it is empty, when it is prose, or when all that fits of it is closing punctuation; a
   title that was cut is what fits but closing punctuation and a blank.
   */
  lemma FittedIff(title: Str)
    requires IsTrimmed(title)
    ensures Fitted(title).None?
            <==> || title == [] || |title| > SUMMARY_REJECT_OVER
                 || (|title| > SUMMARY_TITLE_MAX && AllClosing(Piece(title)))
    ensures Fitted(title).Some? && |title| > SUMMARY_TITLE_MAX ==>
              var t, piece := Fitted(title).value, Piece(title);
              t <= piece && forall i :: |t| <= i < |piece| ==> IsClosing(piece[i]) || IsSpace(piece[i])
  {
    if SUMMARY_TITLE_MAX < |title| <= SUMMARY_REJECT_OVER {
      var cut, piece := title[..SUMMARY_TITLE_MAX + 1], Piece(title);
      var boundary := LastBlank(cut);
      assert piece == (if boundary == -1 then cut[..SUMMARY_TITLE_MAX] else cut[..boundary]);
      assert piece == title[..|piece|];
      PieceShortened(piece);
    }
  }

  lemma PieceShortened(piece: Str)
    requires piece != [] ==> !IsSpace(piece[0])
    ensures var t := Trim(WithoutClosing(piece));
            && (t == [] <==> AllClosing(piece))
            && t <= piece && forall i :: |t| <= i < |piece| ==> IsClosing(piece[i]) || IsSpace(piece[i])
  {
    var kept := WithoutClosing(piece);
    WithoutClosingIs(piece);
    TrimKeepsStart(kept);
    var t := Trim(kept);
    assert kept == [] ==> piece[0..] == piece;
    forall i | |t| <= i < |piece| ensures IsClosing(piece[i]) || IsSpace(piece[i]) {
      if i < |kept| {
        assert kept[i] == kept[|t|..][i - |t|];
      } else {
        assert piece[i] == piece[|kept|..][i - |kept|];
      }
    }
  }

  /** The lines of an answer. */
  function AnswerLines(raw: Str): seq<Str> {
    var p := Split(raw, [NEWLINE]);
    p.blocks + [p.tail]
  }

  /**
   An answer gives no title exactly when it says nothing, or when its first line that says something, tidied, is nothing,
   is prose, or has only closing punctuation where a title would be cut from.
   */
  lemma CleanTitleIff(wrappers: seq<Wrapper>, raw: Str)
    requires NoneEmpty(wrappers)
    ensures CleanSummaryTitle(wrappers, raw).None?
            <==> || (forall i :: 0 <= i < |AnswerLines(raw)| ==> Trim(AnswerLines(raw)[i]) == [])
                 || (FirstLine(AnswerLines(raw)).Some?
                     && var title := Tidied(wrappers, FirstLine(AnswerLines(raw)).value);
                        || title == [] || |title| > SUMMARY_REJECT_OVER
                        || (|title| > SUMMARY_TITLE_MAX && AllClosing(Piece(title))))
  {
    FirstLineIs(AnswerLines(raw));
    var line := FirstLine(AnswerLines(raw));
    if line.Some? {
      TidiedIsTidy(wrappers, line.value);
      FittedIff(Tidied(wrappers, line.value));
    }
  }

  // ---- a title under all of it ----

  predicate IsBare(wrappers: seq<Wrapper>, s: Str) {
    forall i :: 0 <= i < |wrappers| ==> !Wraps(wrappers[i], s)
  }

  /** A title no pair wraps, that carries no label and does not end on closing punctuation. */
  predicate IsProper(wrappers: seq<Wrapper>, t: Str) {
    IsTitle(t) && IsBare(wrappers, t) && AfterLabel(t).None? && !IsClosing(t[|t| - 1])
  }

  lemma {:induction false} CollapseLeaves(s: Str)
    requires SingleSpaced(s) && IsTrimmed(s)
    ensures Collapse(s) == s
    decreases |s|
  {
    if s != [] {
      var rest := s[1..];
      StretchIsSingleSpaced(s, 1, |s|);
      if rest != [] && IsSpace(rest[0]) {
        var more := rest[1..];
        assert s[1] == rest[0] == BLANK && |s| > 2 && !IsSpace(s[2]);
        assert more[0] == s[2] && more[|more| - 1] == s[|s| - 1];
        StretchIsSingleSpaced(rest, 1, |rest|);
        CollapseLeaves(more);
        assert TrimStart(rest) == more;
        assert Collapse(rest) == [BLANK] + more == rest;
      } else {
        assert rest != [] ==> rest[|rest| - 1] == s[|s| - 1];
        CollapseLeaves(rest);
      }
      assert s == [s[0]] + rest;
    }
  }

  /** Such a title comes back from every line that unwraps to it, to a label in front of it, or to one in front of it wrapped. */
  lemma ProperTitleComesBack(wrappers: seq<Wrapper>, raw: Str, t: Str)
    requires NoneEmpty(wrappers) && IsProper(wrappers, t)
    requires FirstLine(AnswerLines(raw)).Some?
    requires var u := Unwrapped(wrappers, FirstLine(AnswerLines(raw)).value);
             || u == t
             || exists l, v :: IsLabel(l) && StartsBare(v) && u == Labelled(l, v) && IsTrimmed(v)
                               && Unwrapped(wrappers, v) == t
    ensures CleanSummaryTitle(wrappers, raw) == Some(t)
  {
    var u := Unwrapped(wrappers, FirstLine(AnswerLines(raw)).value);
    UnwrappedIs(wrappers, t);
    TrimmedAlready(t);
    if u != t {
      var l, v :| IsLabel(l) && StartsBare(v) && u == Labelled(l, v) && IsTrimmed(v) && Unwrapped(wrappers, v) == t;
      LabelGoes(l, v);
      TrimmedAlready(v);
    }
    CollapseLeaves(t);
    assert WithoutClosing(t) == t;
  }
}
