/**
 The command stream a lab holds open: blocks ended by a blank line, cut out of chunks that end anywhere, and handed over
 until one is refused, or until the wait after a lookahead is over.
 */
module CommandStream {
  import opened Wrappers
  import opened Text
  import opened Framing

  const BLANK_LINE: Str := [NEWLINE, NEWLINE]

  const DATA: Str := Ascii("data:")

  /** What was parsed out of a block: a number, and a command known by an identity of its own. */
  datatype Frame = Frame(number: int, command: int)

  // ---- one block ----

  function LinesOf(block: Str): seq<Str> {
    var p := Split(block, [NEWLINE]);
    p.blocks + [p.tail]
  }

  /** The text of each `data:` line, without the one blank that may stand in front of it. */
  function DataOf(lines: seq<Str>): seq<Str> {
    if lines == [] then []
    else if DATA <= lines[0] then
      var text := lines[0][5..];
      [if text != [] && text[0] == BLANK then text[1..] else text] + DataOf(lines[1..])
    else DataOf(lines[1..])
  }

  function JoinLines(lines: seq<Str>): Str
    requires lines != []
  {
    if |lines| == 1 then lines[0] else lines[0] + [NEWLINE] + JoinLines(lines[1..])
  }

  /** The text a block carries, if it carries any. */
  function Payload(block: Str): Option<Str> {
    var data := DataOf(LinesOf(block));
    if data == [] then None else Some(JoinLines(data))
  }

  /** `parse` stands for `JSON.parse`; a text that is refused, or says `null` or anything else falsy, gives nothing. */
  function CommandFrom(block: Str, parse: Str -> Option<Frame>): Option<Frame> {
    var payload := Payload(block);
    if payload.None? then None else parse(payload.value)
  }

  /** A payload written the way a producer writes one, a line of the block for each line of it. */
  function Written(lines: seq<Str>): Str
    requires lines != []
  {
    JoinLines(Prefixed(lines))
  }

  function Prefixed(lines: seq<Str>): (p: seq<Str>)
    ensures |p| == |lines|
  {
    if lines == [] then [] else [DATA + [BLANK] + lines[0]] + Prefixed(lines[1..])
  }

  predicate OneLine(s: Str) {
    NEWLINE !in s
  }

  lemma OneLineIsBlock(s: Str)
    requires OneLine(s)
    ensures IsBlock(s, [NEWLINE]) && IndexOf(s, [NEWLINE]) == -1
  {
    var t := s + [NEWLINE];
    assert t[|s|..|s| + 1] == [NEWLINE];
    assert StartsAt(t, [NEWLINE], |s|);
    forall k: nat | k < |s| ensures !StartsAt(t, [NEWLINE], k) && !StartsAt(s, [NEWLINE], k) {
      assert s[k] in s && t[k..k + 1] == [s[k]] && s[k..k + 1] == [s[k]];
    }
  }

  lemma {:induction false} LinesComeBack(lines: seq<Str>)
    requires lines != [] && forall i :: 0 <= i < |lines| ==> OneLine(lines[i])
    ensures LinesOf(JoinLines(lines)) == lines
  {
    var n := |lines| - 1;
    forall i | 0 <= i < n ensures IsBlock(lines[i], [NEWLINE]) {
      OneLineIsBlock(lines[i]);
    }
    OneLineIsBlock(lines[n]);
    SplitIsUnique(lines[..n], lines[n], [NEWLINE]);
    JoinedLines(lines);
    assert lines == lines[..n] + [lines[n]];
  }

  lemma {:induction false} JoinedLines(lines: seq<Str>)
    requires lines != []
    ensures JoinLines(lines) == Join(lines[..|lines| - 1], [NEWLINE]) + lines[|lines| - 1]
  {
    var n := |lines| - 1;
    if n > 0 {
      JoinedLines(lines[1..]);
      assert lines[1..][..n - 1] == lines[..n][1..];
      JoinFirst(lines[0], lines[..n][1..], lines[n], [NEWLINE]);
      assert [lines[0]] + lines[..n][1..] == lines[..n];
    }
  }

  lemma {:induction false} DataOfPrefixed(lines: seq<Str>)
    ensures DataOf(Prefixed(lines)) == lines
  {
    if lines != [] {
      DataOfPrefixed(lines[1..]);
      var first := DATA + [BLANK] + lines[0];
      assert first[5..] == [BLANK] + lines[0] && first[5..][1..] == lines[0];
      assert DATA <= first;
      assert Prefixed(lines)[1..] == Prefixed(lines[1..]);
    }
  }

  lemma {:induction false} PrefixedAreLines(lines: seq<Str>)
    requires forall i :: 0 <= i < |lines| ==> OneLine(lines[i])
    ensures forall i :: 0 <= i < |lines| ==> OneLine(Prefixed(lines)[i])
  {
    if lines != [] {
      PrefixedAreLines(lines[1..]);
      assert OneLine(lines[0]) && NEWLINE !in DATA;
    }
  }

  /** A payload of any lines is read out of its block as it was. */
  lemma PayloadComesBack(lines: seq<Str>)
    requires lines != [] && forall i :: 0 <= i < |lines| ==> OneLine(lines[i])
    ensures Payload(Written(lines)) == Some(JoinLines(lines))
  {
    PrefixedAreLines(lines);
    LinesComeBack(Prefixed(lines));
    DataOfPrefixed(lines);
  }

  // ---- the stream ----

  /** What the caller answers a command with; `Threw` is an error out of the caller. */
  datatype Disposition = Taken | Lookahead | Refused | Threw

  /** `late`: it came more than 75 ms after it was asked for. */
  datatype Arrival = Arrival(chunk: Str, late: bool)

  datatype Outcome = Closed | Backpressure

  function FramesOf(blocks: seq<Str>, read: Str -> Option<Frame>): seq<Frame> {
    if blocks == [] then []
    else
      var frame := read(blocks[0]);
      (if frame.None? then [] else [frame.value]) + FramesOf(blocks[1..], read)
  }

  /** The commands in the complete blocks of a text. */
  function FramesIn(text: Str, read: Str -> Option<Frame>): seq<Frame> {
    FramesOf(Split(text, BLANK_LINE).blocks, read)
  }

  function Chunks(arrivals: seq<Arrival>): seq<Str> {
    seq(|arrivals|, i requires 0 <= i < |arrivals| => arrivals[i].chunk)
  }

  function TextOf(arrivals: seq<Arrival>): Str {
    Received(Chunks(arrivals))
  }

  /** The `n`th command ends the reading. */
  predicate Stops(dispose: nat -> Disposition, n: nat) {
    dispose(n) == Refused || dispose(n) == Threw
  }

  predicate Stopped(handed: seq<Frame>, dispose: nat -> Disposition) {
    handed != [] && Stops(dispose, |handed| - 1)
  }

  /** Handed over in order up to the first that was refused, that one included, and nothing after it. */
  predicate CutAfterFirstStop(handed: seq<Frame>, frames: seq<Frame>, dispose: nat -> Disposition) {
    && handed <= frames
    && (forall k :: 0 <= k < |handed| - 1 ==> !Stops(dispose, k))
    && (handed == frames || Stopped(handed, dispose))
  }

  predicate LookingAhead(frames: seq<Frame>, dispose: nat -> Disposition) {
    frames != [] && dispose(|frames| - 1) == Lookahead
  }

  /** The wait for the next chunk, or for the end of the stream, ran into the lookahead's limit. */
  predicate TimedOut(arrivals: seq<Arrival>, endsLate: bool, m: nat, read: Str -> Option<Frame>,
                     dispose: nat -> Disposition)
    requires m <= |arrivals|
  {
    && LookingAhead(FramesIn(TextOf(arrivals[..m]), read), dispose)
    && if m < |arrivals| then arrivals[m].late else endsLate
  }

  /** None of the first `n` waits was cut short. */
  predicate Waited(arrivals: seq<Arrival>, endsLate: bool, n: nat, read: Str -> Option<Frame>,
                   dispose: nat -> Disposition)
    requires n <= |arrivals| + 1
  {
    n > 0 ==>
      !TimedOut(arrivals, endsLate, n - 1, read, dispose) && Waited(arrivals, endsLate, n - 1, read, dispose)
  }

  /** What a reading of the stream comes to, after `used` chunks. */
  predicate Reads(handed: seq<Frame>, outcome: Outcome, used: nat, arrivals: seq<Arrival>, endsLate: bool,
                        read: Str -> Option<Frame>, dispose: nat -> Disposition)
  {
    && used <= |arrivals|
    && CutAfterFirstStop(handed, FramesIn(TextOf(arrivals[..used]), read), dispose)
    && Waited(arrivals, endsLate, used, read, dispose)
    && (!Stopped(handed, dispose) && used < |arrivals| ==> TimedOut(arrivals, endsLate, used, read, dispose))
    && (outcome == Backpressure <==>
          if Stopped(handed, dispose) then dispose(|handed| - 1) == Refused
          else TimedOut(arrivals, endsLate, used, read, dispose))
  }

  // ---- frames and chunks ----

  lemma {:induction false} FramesGoOn(a: seq<Str>, b: seq<Str>, read: Str -> Option<Frame>)
    ensures FramesOf(a + b, read) == FramesOf(a, read) + FramesOf(b, read)
    decreases |a|
  {
    if a == [] {
      assert a + b == b;
    } else {
      FramesGoOn(a[1..], b, read);
      assert (a + b)[1..] == a[1..] + b;
      var frame := read(a[0]);
      var first := if frame.None? then [] else [frame.value];
      assert first + (FramesOf(a[1..], read) + FramesOf(b, read))
          == first + FramesOf(a[1..], read) + FramesOf(b, read);
    }
  }

  lemma NextChunk(arrivals: seq<Arrival>, m: nat)
    requires m < |arrivals|
    ensures TextOf(arrivals[..m + 1]) == TextOf(arrivals[..m]) + arrivals[m].chunk
  {
    assert Chunks(arrivals[..m + 1])[..m] == Chunks(arrivals[..m]);
  }

  lemma FramesOfMoreText(text: Str, chunk: Str, read: Str -> Option<Frame>)
    ensures var p := Split(text, BLANK_LINE);
            var q := Split(p.tail + chunk, BLANK_LINE);
            && Split(text + chunk, BLANK_LINE).tail == q.tail
            && FramesIn(text + chunk, read) == FramesIn(text, read) + FramesOf(q.blocks, read)
  {
    SplitGoesOn(text, chunk, BLANK_LINE);
    var p := Split(text, BLANK_LINE);
    FramesGoOn(p.blocks, Split(p.tail + chunk, BLANK_LINE).blocks, read);
  }

  lemma {:induction false} MoreFrames(arrivals: seq<Arrival>, m: nat, read: Str -> Option<Frame>)
    requires m <= |arrivals|
    ensures FramesIn(TextOf(arrivals[..m]), read) <= FramesIn(TextOf(arrivals), read)
    decreases |arrivals| - m
  {
    if m == |arrivals| {
      assert arrivals[..m] == arrivals;
    } else {
      NextChunk(arrivals, m);
      FramesOfMoreText(TextOf(arrivals[..m]), arrivals[m].chunk, read);
      MoreFrames(arrivals, m + 1, read);
    }
  }

  // ---- main results ----

  /** There is one cut only. */
  lemma CutIsUnique(a: seq<Frame>, b: seq<Frame>, frames: seq<Frame>, dispose: nat -> Disposition)
    requires CutAfterFirstStop(a, frames, dispose) && CutAfterFirstStop(b, frames, dispose)
    ensures a == b
  {
    assert a == frames[..|a|] && b == frames[..|b|];
  }

  /** Where no wait is cut short, what is handed over is the cut of the whole text. */
  lemma PromptReadingIsOfTheWholeText(handed: seq<Frame>, outcome: Outcome, used: nat, arrivals: seq<Arrival>,
                                      read: Str -> Option<Frame>, dispose: nat -> Disposition)
    requires Reads(handed, outcome, used, arrivals, false, read, dispose)
    requires forall i :: 0 <= i < |arrivals| ==> !arrivals[i].late
    ensures CutAfterFirstStop(handed, FramesIn(TextOf(arrivals), read), dispose)
    ensures outcome == Backpressure <==> handed != [] && dispose(|handed| - 1) == Refused
  {
    MoreFrames(arrivals, used, read);
    if used == |arrivals| {
      assert arrivals[..used] == arrivals;
    }
  }

  /** So two chunkings of one text hand over the same commands and end the same way. */
  lemma ChunkingDoesNotMatter(
      handed: seq<Frame>, outcome: Outcome, used: nat, arrivals: seq<Arrival>,
      handed': seq<Frame>, outcome': Outcome, used': nat, arrivals': seq<Arrival>,
      read: Str -> Option<Frame>, dispose: nat -> Disposition)
    requires Reads(handed, outcome, used, arrivals, false, read, dispose)
    requires Reads(handed', outcome', used', arrivals', false, read, dispose)
    requires forall i :: 0 <= i < |arrivals| ==> !arrivals[i].late
    requires forall i :: 0 <= i < |arrivals'| ==> !arrivals'[i].late
    requires TextOf(arrivals) == TextOf(arrivals')
    ensures handed == handed' && outcome == outcome'
  {
    PromptReadingIsOfTheWholeText(handed, outcome, used, arrivals, read, dispose);
    PromptReadingIsOfTheWholeText(handed', outcome', used', arrivals', read, dispose);
    CutIsUnique(handed, handed', FramesIn(TextOf(arrivals), read), dispose);
  }

  lemma CutStaysCut(handed: seq<Frame>, frames: seq<Frame>, frames': seq<Frame>, dispose: nat -> Disposition)
    requires CutAfterFirstStop(handed, frames, dispose) && frames <= frames'
    requires Stopped(handed, dispose) || frames == frames'
    ensures CutAfterFirstStop(handed, frames', dispose)
  {
  }

  lemma {:induction false} WaitedEarlier(arrivals: seq<Arrival>, endsLate: bool, n: nat, m: nat,
                                         read: Str -> Option<Frame>, dispose: nat -> Disposition)
    requires m < n <= |arrivals| && Waited(arrivals, endsLate, n, read, dispose)
    ensures !TimedOut(arrivals, endsLate, m, read, dispose)
  {
    if m < n - 1 {
      WaitedEarlier(arrivals, endsLate, n - 1, m, read, dispose);
    }
  }

  lemma LongerReadingIsTheSame(
      handed: seq<Frame>, outcome: Outcome, used: nat, handed': seq<Frame>, outcome': Outcome, used': nat,
      arrivals: seq<Arrival>, endsLate: bool, read: Str -> Option<Frame>, dispose: nat -> Disposition)
    requires Reads(handed, outcome, used, arrivals, endsLate, read, dispose)
    requires Reads(handed', outcome', used', arrivals, endsLate, read, dispose)
    requires used <= used'
    ensures handed == handed' && outcome == outcome'
  {
    var frames' := FramesIn(TextOf(arrivals[..used']), read);
    assert arrivals[..used'][..used] == arrivals[..used];
    MoreFrames(arrivals[..used'], used, read);
    if used < used' {
      WaitedEarlier(arrivals, endsLate, used', used, read, dispose);
    }
    assert used == used' || Stopped(handed, dispose);
    CutStaysCut(handed, FramesIn(TextOf(arrivals[..used]), read), frames', dispose);
    CutIsUnique(handed, handed', frames', dispose);
  }

  /** Late or not, every reading of one stream hands over the same commands and ends the same way. */
  lemma ReadingIsDetermined(
      handed: seq<Frame>, outcome: Outcome, used: nat, handed': seq<Frame>, outcome': Outcome, used': nat,
      arrivals: seq<Arrival>, endsLate: bool, read: Str -> Option<Frame>, dispose: nat -> Disposition)
    requires Reads(handed, outcome, used, arrivals, endsLate, read, dispose)
    requires Reads(handed', outcome', used', arrivals, endsLate, read, dispose)
    ensures handed == handed' && outcome == outcome'
  {
    if used <= used' {
      LongerReadingIsTheSame(handed, outcome, used, handed', outcome', used', arrivals, endsLate, read, dispose);
    } else {
      LongerReadingIsTheSame(handed', outcome', used', handed, outcome, used, arrivals, endsLate, read, dispose);
    }
  }

  // ---- `openCommands`, once the stream is open ----

  /** `commandFrom` */
  function Reader(parse: Str -> Option<Frame>): Str -> Option<Frame> {
    block => CommandFrom(block, parse)
  }

  lemma NothingYet(arrivals: seq<Arrival>, read: Str -> Option<Frame>)
    ensures TextOf(arrivals[..0]) == [] && Split([], BLANK_LINE) == Pieces([], []) && FramesIn([], read) == []
  {
    assert IndexOf([], BLANK_LINE) == -1;
    assert Chunks(arrivals[..0]) == [];
  }

  predicate AllWentThrough(handed: seq<Frame>, dispose: nat -> Disposition) {
    forall k :: 0 <= k < |handed| ==> !Stops(dispose, k)
  }

  lemma ThroughIsCut(frames: seq<Frame>, dispose: nat -> Disposition)
    requires AllWentThrough(frames, dispose)
    ensures CutAfterFirstStop(frames, frames, dispose) && !Stopped(frames, dispose)
  {
  }

  lemma OneMoreThrough(handed: seq<Frame>, frame: Frame, dispose: nat -> Disposition)
    requires AllWentThrough(handed, dispose) && !Stops(dispose, |handed|)
    ensures AllWentThrough(handed + [frame], dispose)
    ensures LookingAhead(handed + [frame], dispose) <==> dispose(|handed|) == Lookahead
  {
  }

  lemma CutAtStop(before: seq<Frame>, frame: Frame, later: seq<Frame>, dispose: nat -> Disposition)
    requires AllWentThrough(before, dispose) && Stops(dispose, |before|)
    ensures CutAfterFirstStop(before + [frame], before + ([frame] + later), dispose)
    ensures Stopped(before + [frame], dispose)
  {
    assert before + ([frame] + later) == (before + [frame]) + later;
  }

  /** `used` counts the chunks that were read. */
  method OpenCommands(arrivals: seq<Arrival>, endsLate: bool, parse: Str -> Option<Frame>,
                      dispose: nat -> Disposition)
    returns (handed: seq<Frame>, outcome: Outcome, used: nat)
    ensures Reads(handed, outcome, used, arrivals, endsLate, Reader(parse), dispose)
  {
    var read := Reader(parse);
    var buffered, lookingAhead := [], false;
    handed, outcome, used := [], Closed, 0;
    ghost var text := [];
    NothingYet(arrivals, read);
    while used <= |arrivals|
      invariant used <= |arrivals|
      invariant text == TextOf(arrivals[..used])
      invariant buffered == Split(text, BLANK_LINE).tail && handed == FramesIn(text, read)
      invariant AllWentThrough(handed, dispose)
      invariant Waited(arrivals, endsLate, used, read, dispose)
      invariant lookingAhead == LookingAhead(handed, dispose)
      invariant outcome == Closed
      decreases |arrivals| - used
    {
      var late := if used < |arrivals| then arrivals[used].late else endsLate;
      ThroughIsCut(handed, dispose);
      if lookingAhead && late {
        assert TimedOut(arrivals, endsLate, used, read, dispose);
        outcome := Backpressure;
        return;
      }
      assert !TimedOut(arrivals, endsLate, used, read, dispose);
      if used == |arrivals| {
        return;
      }
      var chunk := arrivals[used].chunk;
      NextChunk(arrivals, used);
      FramesOfMoreText(text, chunk, read);
      buffered := buffered + chunk;
      used, text := used + 1, text + chunk;
      var ended;
      buffered, handed, lookingAhead, ended := HandOver(buffered, handed, lookingAhead, read, dispose);
      if ended {
        outcome := if dispose(|handed| - 1) == Refused then Backpressure else Closed;
        assert CutAfterFirstStop(handed, FramesIn(TextOf(arrivals[..used]), read), dispose);
        return;
      }
    }
  }

  /** The blocks now complete, one after another. */
  method HandOver(text: Str, before: seq<Frame>, looking: bool, read: Str -> Option<Frame>,
                  dispose: nat -> Disposition)
    returns (buffered: Str, handed: seq<Frame>, lookingAhead: bool, ended: bool)
    requires AllWentThrough(before, dispose) && looking == LookingAhead(before, dispose)
    ensures CutAfterFirstStop(handed, before + FramesOf(Split(text, BLANK_LINE).blocks, read), dispose)
    ensures ended == Stopped(handed, dispose)
    ensures !ended ==> handed == before + FramesOf(Split(text, BLANK_LINE).blocks, read)
    ensures !ended ==> AllWentThrough(handed, dispose)
    ensures !ended ==> buffered == Split(text, BLANK_LINE).tail && lookingAhead == LookingAhead(handed, dispose)
  {
    buffered, handed, lookingAhead, ended := text, before, looking, false;
    var cut := IndexOf(buffered, BLANK_LINE);
    ghost var pieces := Split(text, BLANK_LINE);
    ghost var frames, later := before + FramesOf(pieces.blocks, read), FramesOf(pieces.blocks, read);
    while cut != -1
      invariant cut == IndexOf(buffered, BLANK_LINE)
      invariant pieces.tail == Split(text, BLANK_LINE).tail && pieces == Split(buffered, BLANK_LINE)
      invariant later == FramesOf(pieces.blocks, read) && handed + later == frames
      invariant AllWentThrough(handed, dispose)
      invariant lookingAhead == LookingAhead(handed, dispose)
      decreases |buffered|
    {
      NextBlock(buffered, cut, read);
      var block := buffered[..cut];
      buffered := buffered[cut + 2..];
      pieces := Split(buffered, BLANK_LINE);
      later := FramesOf(pieces.blocks, read);
      var frame := read(block);
      if frame.Some? {
        var disposition := dispose(|handed|);
        if disposition == Refused || disposition == Threw {
          CutAtStop(handed, frame.value, later, dispose);
          handed, ended := handed + [frame.value], true;
          return;
        }
        Shift(handed, frame.value, later);
        OneMoreThrough(handed, frame.value, dispose);
        handed, lookingAhead := handed + [frame.value], disposition == Lookahead;
      }
      cut := IndexOf(buffered, BLANK_LINE);
    }
    assert handed + [] == handed;
    ThroughIsCut(handed, dispose);
  }

  lemma NextBlock(text: Str, cut: nat, read: Str -> Option<Frame>)
    requires IndexOf(text, BLANK_LINE) == cut
    ensures var frame := read(text[..cut]);
            var rest := Split(text[cut + 2..], BLANK_LINE);
            && Split(text, BLANK_LINE).tail == rest.tail
            && FramesOf(Split(text, BLANK_LINE).blocks, read)
               == if frame.None? then FramesOf(rest.blocks, read) else [frame.value] + FramesOf(rest.blocks, read)
  {
    var rest := Split(text[cut + 2..], BLANK_LINE);
    assert Split(text, BLANK_LINE) == Push(text[..cut], rest);
    assert ([text[..cut]] + rest.blocks)[1..] == rest.blocks;
    assert [] + FramesOf(rest.blocks, read) == FramesOf(rest.blocks, read);
  }

  lemma Shift(handed: seq<Frame>, frame: Frame, later: seq<Frame>)
    ensures handed + ([frame] + later) == (handed + [frame]) + later
  {
  }
}
