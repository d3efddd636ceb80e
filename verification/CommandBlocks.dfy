/**
 From the blocks a lab writes to the commands that are handed over: what a block of a command reads as, what other lines
 in it come to, and what a whole stream of them is.
 */
module CommandBlocks {
  import opened Wrappers
  import opened Text
  import opened Framing
  import opened CommandStream

  predicate AllLines(lines: seq<Str>) {
    forall i :: 0 <= i < |lines| ==> OneLine(lines[i])
  }

  // ---- one block ----

  /** A command written over any number of lines reads as what its payload is parsed to. */
  lemma CommandComesBack(lines: seq<Str>, parse: Str -> Option<Frame>)
    requires lines != [] && AllLines(lines)
    ensures CommandFrom(Written(lines), parse) == parse(JoinLines(lines))
  {
    PayloadComesBack(lines);
  }

  lemma {:induction false} DataOfBoth(a: seq<Str>, b: seq<Str>)
    ensures DataOf(a + b) == DataOf(a) + DataOf(b)
  {
    if a == [] {
      assert a + b == b;
    } else {
      assert (a + b)[1..] == a[1..] + b;
      DataOfBoth(a[1..], b);
    }
  }

  /** A line that does not start with `data:` may stand anywhere in a block and changes nothing. */
  lemma OtherLinesChangeNothing(before: seq<Str>, other: Str, after: seq<Str>, parse: Str -> Option<Frame>)
    requires AllLines(before) && OneLine(other) && AllLines(after) && before + after != []
    requires !(DATA <= other)
    ensures CommandFrom(JoinLines(before + [other] + after), parse) == CommandFrom(JoinLines(before + after), parse)
  {
    LinesComeBack(before + [other] + after);
    LinesComeBack(before + after);
    OtherIsNoData(before, other, after);
  }

  lemma OtherIsNoData(before: seq<Str>, other: Str, after: seq<Str>)
    requires !(DATA <= other)
    ensures DataOf(before + [other] + after) == DataOf(before + after)
  {
    DataOfBoth(before + [other], after);
    DataOfBoth(before, [other]);
    DataOfBoth(before, after);
    var rest := [other][1..];
    assert rest == [] && DataOf(rest) == [];
    assert DataOf(before) + [] == DataOf(before);
  }

  /** A block without a `data:` line is no command, whatever the parser makes of it. */
  lemma {:induction false} NoDataNoCommand(lines: seq<Str>, parse: Str -> Option<Frame>)
    requires lines != [] && AllLines(lines) && forall i :: 0 <= i < |lines| ==> !(DATA <= lines[i])
    ensures CommandFrom(JoinLines(lines), parse) == None
  {
    LinesComeBack(lines);
    NoDataOf(lines);
  }

  lemma {:induction false} NoDataOf(lines: seq<Str>)
    requires forall i :: 0 <= i < |lines| ==> !(DATA <= lines[i])
    ensures DataOf(lines) == []
  {
    if lines != [] {
      NoDataOf(lines[1..]);
    }
  }

  /** The one blank after the colon may be left out. */
  lemma BlankIsOptional(text: Str)
    requires text != [] ==> text[0] != BLANK
    ensures DataOf([DATA + text]) == DataOf([DATA + [BLANK] + text]) == [text]
  {
    var a, b := DATA + text, DATA + [BLANK] + text;
    assert a[5..] == text && b[5..] == [BLANK] + text && b[5..][1..] == text;
    assert DATA <= a && DATA <= b;
    var rest, more := [a][1..], [b][1..];
    assert rest == [] && more == [] && DataOf(rest) == [] && DataOf(more) == [];
  }

  // ---- a stream of them ----

  /** No two newlines in a row, and none at the end. */
  predicate NoBlankLine(s: Str) {
    && (forall i :: 0 <= i < |s| - 1 ==> s[i] != NEWLINE || s[i + 1] != NEWLINE)
    && (s != [] ==> s[|s| - 1] != NEWLINE)
  }

  lemma {:induction false} JoinedHasNoBlankLine(lines: seq<Str>)
    requires lines != [] && AllLines(lines) && forall i :: 0 <= i < |lines| ==> lines[i] != []
    ensures JoinLines(lines) != [] && JoinLines(lines)[0] != NEWLINE && NoBlankLine(JoinLines(lines))
  {
    assert lines[0][0] in lines[0] && lines[0][|lines[0]| - 1] in lines[0];
    if |lines| > 1 {
      var first, more := lines[0], JoinLines(lines[1..]);
      JoinedHasNoBlankLine(lines[1..]);
      BlankFree(first, more);
    } else {
      forall i | 0 <= i < |lines[0]| ensures lines[0][i] != NEWLINE {
        assert lines[0][i] in lines[0];
      }
    }
  }

  lemma BlankFree(first: Str, more: Str)
    requires OneLine(first) && first != [] && more != [] && more[0] != NEWLINE && NoBlankLine(more)
    ensures NoBlankLine(first + [NEWLINE] + more)
  {
    var s := first + [NEWLINE] + more;
    forall i | 0 <= i < |s| - 1 ensures s[i] != NEWLINE || s[i + 1] != NEWLINE {
      if i < |first| {
        assert s[i] == first[i] && first[i] in first;
      } else if i > |first| {
        assert s[i] == more[i - |first| - 1] && s[i + 1] == more[i - |first|];
      }
    }
    assert s[|s| - 1] == more[|more| - 1];
  }

  lemma BlankFreeIsBlock(s: Str)
    requires s != [] && NoBlankLine(s)
    ensures IsBlock(s, BLANK_LINE)
  {
    var t := s + BLANK_LINE;
    assert t[|s|..|s| + 2] == BLANK_LINE;
    assert StartsAt(t, BLANK_LINE, |s|);
    forall k: nat | k < |s| ensures !StartsAt(t, BLANK_LINE, k) {
      assert t[k..k + 2][0] == t[k] == s[k] && t[k..k + 2][1] == t[k + 1];
      assert k + 1 < |s| ==> t[k + 1] == s[k + 1];
    }
  }

  lemma WrittenIsBlock(lines: seq<Str>)
    requires lines != [] && AllLines(lines)
    ensures IsBlock(Written(lines), BLANK_LINE)
  {
    PrefixedAreLines(lines);
    PrefixedNotEmpty(lines);
    JoinedHasNoBlankLine(Prefixed(lines));
    BlankFreeIsBlock(Written(lines));
  }

  lemma {:induction false} PrefixedNotEmpty(lines: seq<Str>)
    ensures forall i :: 0 <= i < |lines| ==> Prefixed(lines)[i] != []
  {
    if lines != [] {
      PrefixedNotEmpty(lines[1..]);
    }
  }

  /** Payloads as a lab sends them, one block each. */
  predicate Sendable(payloads: seq<seq<Str>>) {
    forall i :: 0 <= i < |payloads| ==> payloads[i] != [] && AllLines(payloads[i])
  }

  function Blocks(payloads: seq<seq<Str>>): (blocks: seq<Str>)
    requires Sendable(payloads)
    ensures |blocks| == |payloads|
  {
    seq(|payloads|, i requires 0 <= i < |payloads| => Written(payloads[i]))
  }

  /** What the parser makes of the payloads, in order, those it refuses left out. */
  function Commands(payloads: seq<seq<Str>>, parse: Str -> Option<Frame>): seq<Frame>
    requires Sendable(payloads)
  {
    if payloads == [] then []
    else
      var frame := parse(JoinLines(payloads[0]));
      (if frame.Some? then [frame.value] else []) + Commands(payloads[1..], parse)
  }

  lemma {:induction false} FramesOfBlocks(payloads: seq<seq<Str>>, parse: Str -> Option<Frame>)
    requires Sendable(payloads)
    ensures FramesOf(Blocks(payloads), Reader(parse)) == Commands(payloads, parse)
  {
    if payloads != [] {
      CommandComesBack(payloads[0], parse);
      assert Blocks(payloads)[1..] == Blocks(payloads[1..]);
      FramesOfBlocks(payloads[1..], parse);
    }
  }

  /** The commands in a stream a lab has written are those it sent, in order; an unfinished block is none. */
  lemma StreamOfCommands(payloads: seq<seq<Str>>, tail: Str, parse: Str -> Option<Frame>)
    requires Sendable(payloads) && IndexOf(tail, BLANK_LINE) == -1
    ensures FramesIn(Join(Blocks(payloads), BLANK_LINE) + tail, Reader(parse)) == Commands(payloads, parse)
  {
    forall i | 0 <= i < |payloads| ensures IsBlock(Blocks(payloads)[i], BLANK_LINE) {
      WrittenIsBlock(payloads[i]);
    }
    SplitIsUnique(Blocks(payloads), tail, BLANK_LINE);
    FramesOfBlocks(payloads, parse);
  }

  /** So, waits aside, a reader that takes everything is handed exactly what was sent, however it was cut. */
  lemma WhatIsSentIsHandedOver(handed: seq<Frame>, outcome: Outcome, used: nat, arrivals: seq<Arrival>,
                               payloads: seq<seq<Str>>, tail: Str, parse: Str -> Option<Frame>,
                               dispose: nat -> Disposition)
    requires Reads(handed, outcome, used, arrivals, false, Reader(parse), dispose)
    requires forall i :: 0 <= i < |arrivals| ==> !arrivals[i].late
    requires Sendable(payloads) && IndexOf(tail, BLANK_LINE) == -1
    requires TextOf(arrivals) == Join(Blocks(payloads), BLANK_LINE) + tail
    requires forall n :: !Stops(dispose, n)
    ensures handed == Commands(payloads, parse) && outcome == Closed
  {
    PromptReadingIsOfTheWholeText(handed, outcome, used, arrivals, Reader(parse), dispose);
    StreamOfCommands(payloads, tail, parse);
    assert handed != [] ==> !Stops(dispose, |handed| - 1);
  }

  /**
   When a reading ends with backpressure: when the last command handed over was refused, or was taken with a lookahead
   and the wait after it ran late.
   */
  lemma BackpressureIff(handed: seq<Frame>, outcome: Outcome, used: nat, arrivals: seq<Arrival>, endsLate: bool,
                        read: Str -> Option<Frame>, dispose: nat -> Disposition)
    requires Reads(handed, outcome, used, arrivals, endsLate, read, dispose)
    ensures outcome == Backpressure
            <==> && handed != []
                 && (|| dispose(|handed| - 1) == Refused
                     || (&& dispose(|handed| - 1) == Lookahead
                         && if used < |arrivals| then arrivals[used].late else endsLate))
  {
    if !Stopped(handed, dispose) {
      assert handed == FramesIn(TextOf(arrivals[..used]), read);
    }
  }
}
