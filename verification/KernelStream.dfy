/**
 The kernel host read off its pipe while everything else goes on: chunks arrive, lines are taken off one by one, and
 calls, handled asks, notices and exits come anywhere in between, also in the middle of a chunk.
 */
module KernelStream {
  import opened Wrappers
  import opened Text
  import opened Framing
  import opened KernelHost

  /** `received` is all the text so far, `heard` the lines delivered, `events` what became of it all for the host. */
  datatype World = World(host: Host, carry: Str, received: Str, heard: seq<Str>, events: seq<Event>)

  const QUIET: World := World(FRESH, [], [], [], [])

  datatype Input = Chunk(text: Str) | TakeLine | Happens(event: Event)

  /** A message is heard only by taking a line. */
  predicate Enabled(w: World, input: Input) {
    match input
    case Chunk(_) => true
    case TakeLine => IndexOf(w.carry, [NEWLINE]) >= 0
    case Happens(event) => !event.Receives?
  }

  function Happened(w: World, e: Event): World {
    w.(host := KernelHost.Apply(w.host, e), events := w.events + [e])
  }

  /** The first complete line of a text, trimmed, and what comes after its newline. */
  function FirstLine(text: Str): Str
    requires IndexOf(text, [NEWLINE]) >= 0
  {
    Trim(text[..IndexOf(text, [NEWLINE])])
  }

  function AfterLine(text: Str): Str
    requires IndexOf(text, [NEWLINE]) >= 0
  {
    text[IndexOf(text, [NEWLINE]) + 1..]
  }

  function Delivered(w: World, line: Str, read: Str -> Message): World {
    if line == [] then w else Happened(w, Receives(read(line))).(heard := w.heard + [line])
  }

  function Taken(w: World, read: Str -> Message): World
    requires IndexOf(w.carry, [NEWLINE]) >= 0
  {
    Delivered(w.(carry := AfterLine(w.carry)), FirstLine(w.carry), read)
  }

  /** A line that is empty once trimmed is not delivered. Nothing is read once the process is down. */
  function Apply(w: World, input: Input, read: Str -> Message): World
    requires Enabled(w, input)
  {
    if !w.host.up then w
    else
      match input
      case Chunk(text) => w.(carry := w.carry + text, received := w.received + text)
      case TakeLine => Taken(w, read)
      case Happens(event) => Happened(w, event)
  }

  ghost predicate IsRun(worlds: seq<World>, inputs: seq<Input>, read: Str -> Message) {
    && |worlds| == |inputs| + 1
    && worlds[0] == QUIET
    && forall i :: 0 <= i < |inputs| ==> Enabled(worlds[i], inputs[i]) && worlds[i + 1] == Apply(worlds[i], inputs[i], read)
  }

  /** The messages among the host's events, in order. */
  function MessagesIn(events: seq<Event>): seq<Message> {
    if events == [] then []
    else
      var last := events[|events| - 1];
      MessagesIn(events[..|events| - 1]) + if last.Receives? then [last.message] else []
  }

  function Readings(lines: seq<Str>, read: Str -> Message): seq<Message> {
    seq(|lines|, i requires 0 <= i < |lines| => read(lines[i]))
  }

  /** The complete lines of a text as they are delivered, and what no newline has ended. */
  function Lines(text: Str): seq<Str> {
    LinesIn(Split(text, [NEWLINE]).blocks)
  }

  // ---- the invariant ----

  /** The text taken so far ends with a line, or there is none. */
  predicate Whole(taken: Str) {
    Split(taken, [NEWLINE]).tail == []
  }

  ghost predicate Took(w: World, taken: Str) {
    w.received == taken + w.carry && Whole(taken) && w.heard == Lines(taken)
  }

  ghost predicate Inv(w: World, read: Str -> Message) {
    && (exists taken :: Took(w, taken))
    && w.host == Run(FRESH, w.events)
    && MessagesIn(w.events) == Readings(w.heard, read)
  }

  lemma RunMore(events: seq<Event>, e: Event)
    ensures Run(FRESH, events + [e]) == KernelHost.Apply(Run(FRESH, events), e)
    ensures MessagesIn(events + [e]) == MessagesIn(events) + if e.Receives? then [e.message] else []
  {
    assert (events + [e])[..|events|] == events;
  }

  lemma OneLine(line: Str)
    requires IndexOf(line + [NEWLINE], [NEWLINE]) == |line|
    ensures Split(line + [NEWLINE], [NEWLINE]) == Pieces([line], [])
  {
    var text := line + [NEWLINE];
    assert text[..|line|] == line && text[|line| + 1..] == [];
    assert IndexOf([], [NEWLINE]) == -1;
    assert Split([], [NEWLINE]) == Pieces([], []);
  }

  /** Text that ends with a line, and one more line after it. */
  lemma LineMore(taken: Str, line: Str)
    requires Whole(taken) && IndexOf(line + [NEWLINE], [NEWLINE]) == |line|
    ensures Whole(taken + (line + [NEWLINE]))
    ensures Lines(taken + (line + [NEWLINE])) == Lines(taken) + if Trim(line) == [] then [] else [Trim(line)]
  {
    var more := line + [NEWLINE];
    OneLine(line);
    SplitGoesOn(taken, more, [NEWLINE]);
    assert [] + more == more;
    LinesInGoesOn(Split(taken, [NEWLINE]).blocks, [line]);
    LinesInOne(line);
  }

  lemma FirstLineCut(text: Str) returns (line: Str)
    requires IndexOf(text, [NEWLINE]) >= 0
    ensures IndexOf(line + [NEWLINE], [NEWLINE]) == |line| && Trim(line) == FirstLine(text)
    ensures text == (line + [NEWLINE]) + AfterLine(text)
  {
    line := text[..IndexOf(text, [NEWLINE])];
    FirstIsBlock(text, [NEWLINE]);
    CutAt(text, [NEWLINE], |line|);
  }

  lemma LinesInOne(line: Str)
    ensures LinesIn([line]) == if Trim(line) == [] then [] else [Trim(line)]
  {
    var rest := [line][1..];
    assert rest == [] && LinesIn(rest) == [];
  }

  lemma DeliveredFollows(w: World, line: Str, read: Str -> Message)
    requires w.host == Run(FRESH, w.events) && MessagesIn(w.events) == Readings(w.heard, read)
    ensures var d := Delivered(w, line, read);
            d.host == Run(FRESH, d.events) && MessagesIn(d.events) == Readings(d.heard, read)
  {
    if line != [] {
      RunMore(w.events, Receives(read(line)));
      assert Readings(w.heard + [line], read) == Readings(w.heard, read) + [read(line)];
    }
  }

  /** A line taken off the carry goes to the text taken. */
  lemma LineMoves(taken: Str, carry: Str) returns (more: Str)
    requires Whole(taken) && IndexOf(carry, [NEWLINE]) >= 0
    ensures more + AfterLine(carry) == taken + carry && Whole(more)
    ensures Lines(more) == Lines(taken) + if FirstLine(carry) == [] then [] else [FirstLine(carry)]
  {
    var line := FirstLineCut(carry);
    LineMore(taken, line);
    more := taken + (line + [NEWLINE]);
  }

  lemma TakeLineKeepsInv(w: World, read: Str -> Message)
    requires Inv(w, read) && Enabled(w, TakeLine) && w.host.up
    ensures Inv(Apply(w, TakeLine, read), read)
  {
    var taken :| Took(w, taken);
    var more := LineMoves(taken, w.carry);
    var rest := w.(carry := AfterLine(w.carry));
    DeliveredFollows(rest, FirstLine(w.carry), read);
    assert Took(Delivered(rest, FirstLine(w.carry), read), more);
  }

  lemma ApplyKeepsInv(w: World, input: Input, read: Str -> Message)
    requires Inv(w, read) && Enabled(w, input)
    ensures Inv(Apply(w, input, read), read)
  {
    if w.host.up {
      var taken :| Took(w, taken);
      match input
      case Chunk(text) =>
        assert taken + (w.carry + text) == w.received + text;
        assert Took(Apply(w, input, read), taken);
      case TakeLine =>
        TakeLineKeepsInv(w, read);
      case Happens(event) =>
        RunMore(w.events, event);
        assert Took(Apply(w, input, read), taken);
    }
  }

  lemma {:induction false} RunKeepsInv(worlds: seq<World>, inputs: seq<Input>, read: Str -> Message, i: nat)
    requires IsRun(worlds, inputs, read) && i <= |inputs|
    ensures Inv(worlds[i], read)
  {
    if i > 0 {
      RunKeepsInv(worlds, inputs, read, i - 1);
      ApplyKeepsInv(worlds[i - 1], inputs[i - 1], read);
    } else {
      assert IndexOf([], [NEWLINE]) == -1;
      assert Took(QUIET, []);
    }
  }

  // ---- main results ----

  /**
   However the output is cut and whatever comes between: what was delivered, and the lines waiting to be, are the
   trimmed lines that are not empty of all the text received, in order.
   */
  lemma {:induction false} HeardAreTheLines(worlds: seq<World>, inputs: seq<Input>, read: Str -> Message, i: nat)
    requires IsRun(worlds, inputs, read) && i <= |inputs|
    ensures var w := worlds[i];
            && w.heard + Lines(w.carry) == Lines(w.received)
            && (IndexOf(w.carry, [NEWLINE]) == -1 ==> w.heard == Lines(w.received))
  {
    RunKeepsInv(worlds, inputs, read, i);
    var w := worlds[i];
    var taken :| Took(w, taken);
    SplitGoesOn(taken, w.carry, [NEWLINE]);
    assert [] + w.carry == w.carry;
    LinesInGoesOn(Split(taken, [NEWLINE]).blocks, Split(w.carry, [NEWLINE]).blocks);
    if IndexOf(w.carry, [NEWLINE]) == -1 {
      assert Split(w.carry, [NEWLINE]).blocks == [];
    }
  }

  /**
   The host stands where the events of its table lead, whose messages are the lines delivered: so everything proved of
   those events holds of a host read off its pipe.
   */
  lemma {:induction false} HostFollowsTheLines(worlds: seq<World>, inputs: seq<Input>, read: Str -> Message, i: nat)
    requires IsRun(worlds, inputs, read) && i <= |inputs|
    ensures worlds[i].host == Run(FRESH, worlds[i].events)
    ensures MessagesIn(worlds[i].events) == Readings(worlds[i].heard, read)
  {
    RunKeepsInv(worlds, inputs, read, i);
  }

  /** The lines left, taken one after another with nothing between. */
  function Drained(w: World, read: Str -> Message): World
    decreases |w.carry|
  {
    if !w.host.up || !Enabled(w, TakeLine) then w else Drained(Apply(w, TakeLine, read), read)
  }

  lemma TakenHost(w: World, read: Str -> Message)
    requires w.host.up && Enabled(w, TakeLine)
    ensures var line, after := FirstLine(w.carry), Apply(w, TakeLine, read);
            && after.carry == AfterLine(w.carry)
            && after.host == if line == [] then w.host else Deliver(w.host, read(line))
  {
  }

  /** What the newline loop makes of a text, when it does its first line and then the rest. */
  lemma LoopTurn(h: Host, text: Str, read: Str -> Message)
    requires h.up && IndexOf(text, [NEWLINE]) >= 0
    ensures Split(text, [NEWLINE]).tail == Split(AfterLine(text), [NEWLINE]).tail
    ensures DeliverAll(h, Lines(text), read)
         == DeliverAll(if FirstLine(text) == [] then h else Deliver(h, read(FirstLine(text))), Lines(AfterLine(text)), read)
  {
    NextLine(h, text, IndexOf(text, [NEWLINE]), read);
  }

  lemma NoLineLeft(text: Str)
    requires IndexOf(text, [NEWLINE]) < 0
    ensures Lines(text) == [] && Split(text, [NEWLINE]).tail == text
  {
  }

  /** Which is what the newline loop does with a chunk when no handler does anything in between. */
  lemma {:induction false} DrainedIsDeliverAll(w: World, read: Str -> Message)
    ensures Drained(w, read).host == DeliverAll(w.host, Lines(w.carry), read)
    ensures Drained(w, read).host.up ==> Drained(w, read).carry == Split(w.carry, [NEWLINE]).tail
    decreases |w.carry|
  {
    if !w.host.up {
    } else if IndexOf(w.carry, [NEWLINE]) < 0 {
      NoLineLeft(w.carry);
    } else {
      TakenHost(w, read);
      LoopTurn(w.host, w.carry, read);
      DrainedIsDeliverAll(Apply(w, TakeLine, read), read);
    }
  }
}
