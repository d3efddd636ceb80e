/**
 A run's append-only frame log and the snapshot stored beside it. Every frame emitted is numbered, appended, and folded
 into the snapshot. Plans are shared by reference and changed after they are emitted, so a plan is only an identity.
 */
module RunLog {
  import opened Wrappers

  datatype TurnState =
    | Planning
    | AwaitingPlanApproval(plan: nat)
    | Executing(plan: nat)
    | AwaitingPermission(asked: Option<nat>, permission: string)
    | AwaitingQuestion(about: Option<nat>, question: string)
    | Completed
    | Failed(reason: string)
    | Cancelled

  /** One line of the execution log; the same tool use may be logged again, with its outcome. */
  datatype Entry = Entry(toolUseId: string, decision: string, result: string)

  datatype Item = Text(text: string) | Step(entry: Entry)

  /** `live` is the payload of the in-flight channels, empty when nothing is in flight. */
  datatype Snapshot = Snapshot(
    state: TurnState,
    plan: Option<nat>,
    stream: seq<Item>,
    live: string,
    reviewing: bool,
    lastEventSeq: nat)

  datatype Event =
    | Whole(snapshot: Snapshot)
    | State(state: TurnState)
    | AssistantText(text: string, partial: bool)
    | PlanProposed(plan: nat)
    | PermissionCard(permission: string)
    | QuestionAsked(question: string)
    | LogEntry(entry: Entry)
    | Live(live: string)
    | Reviewing
    | CompletedEvent(state: TurnState)
    | Other

  datatype Frame = Frame(seqNo: nat, event: Event)

  const INITIAL: Snapshot := Snapshot(Planning, None, [], "", false, 0)

  /** The plan a state carries, if it carries one; a state without one leaves the stored plan standing. */
  function PlanOf(state: TurnState, stored: Option<nat>): Option<nat> {
    match state
    case AwaitingPlanApproval(plan) => Some(plan)
    case Executing(plan) => Some(plan)
    case AwaitingPermission(Some(plan), _) => Some(plan)
    case AwaitingQuestion(Some(plan), _) => Some(plan)
    case _ => stored
  }

  function SpeakInto(stream: seq<Item>, text: string, partial: bool): seq<Item> {
    if partial && stream != [] && stream[|stream| - 1].Text? then
      stream[|stream| - 1 := Text(stream[|stream| - 1].text + text)]
    else stream + [Text(text)]
  }

  predicate IsStep(item: Item, id: string) {
    item.Step? && item.entry.toolUseId == id
  }

  /** The place of the first step of this tool use, or the length when there is none. */
  function FindStep(stream: seq<Item>, id: string): (at: nat)
    ensures at <= |stream|
    ensures at < |stream| ==> IsStep(stream[at], id)
    ensures forall i :: 0 <= i < at ==> !IsStep(stream[i], id)
  {
    if stream == [] then 0
    else if IsStep(stream[0], id) then 0
    else
      var rest := FindStep(stream[1..], id);
      assert forall i :: 1 <= i < 1 + rest ==> stream[i] == stream[1..][i - 1];
      1 + rest
  }

  function LogInto(stream: seq<Item>, entry: Entry): seq<Item> {
    var at := FindStep(stream, entry.toolUseId);
    if at == |stream| then stream + [Step(entry)] else stream[at := Step(entry)]
  }

  /** What one frame makes of the stored snapshot. */
  function Update(s: Snapshot, f: Frame): Snapshot {
    match f.event
    case Whole(snapshot) => snapshot
    case State(state) => s.(state := state, plan := PlanOf(state, s.plan), lastEventSeq := f.seqNo)
    case AssistantText(text, partial) => s.(stream := SpeakInto(s.stream, text, partial), lastEventSeq := f.seqNo)
    case PlanProposed(plan) => s.(plan := Some(plan), lastEventSeq := f.seqNo)
    case PermissionCard(asked) => s.(state := AwaitingPermission(s.plan, asked), lastEventSeq := f.seqNo)
    case QuestionAsked(asked) => s.(state := AwaitingQuestion(s.plan, asked), lastEventSeq := f.seqNo)
    case LogEntry(entry) => s.(stream := LogInto(s.stream, entry), lastEventSeq := f.seqNo)
    case Live(live) => s.(live := live, lastEventSeq := f.seqNo)
    case Reviewing => s.(reviewing := true, lastEventSeq := f.seqNo)
    case CompletedEvent(state) => s.(state := state, live := "", reviewing := false, lastEventSeq := f.seqNo)
    case Other => s.(lastEventSeq := f.seqNo)
  }

  /** The snapshot after a whole log. */
  function Fold(s: Snapshot, frames: seq<Frame>): Snapshot {
    if frames == [] then s else Update(Fold(s, frames[..|frames| - 1]), frames[|frames| - 1])
  }

  /** Frames are numbered from one in the order they were emitted. */
  predicate Numbered(frames: seq<Frame>) {
    forall i :: 0 <= i < |frames| ==> frames[i].seqNo == i + 1
  }

  function Events(frames: seq<Frame>): seq<Event> {
    seq(|frames|, i requires 0 <= i < |frames| => frames[i].event)
  }

  predicate NoSnapshots(events: seq<Event>) {
    forall e :: e in events ==> !e.Whole?
  }

  lemma FoldOneMore(s: Snapshot, frames: seq<Frame>, frame: Frame)
    ensures Fold(s, frames + [frame]) == Update(Fold(s, frames), frame)
  {
    assert (frames + [frame])[..|frames|] == frames;
  }

  /** The run as the in-memory core stores it: the log, and the snapshot a resuming client starts from. */
  class ActiveRun {
    var frames: seq<Frame>
    var snapshot: Snapshot

    ghost predicate Valid()
      reads this
    {
      Numbered(frames) && snapshot == Fold(INITIAL, frames)
    }

    constructor ()
      ensures Valid() && frames == []
    {
      frames, snapshot := [], INITIAL;
    }

    method Emit(event: Event)
      requires Valid()
      modifies this
      ensures Valid()
      ensures frames == old(frames) + [Frame(|old(frames)| + 1, event)]
    {
      var frame := Frame(|frames| + 1, event);
      FoldOneMore(INITIAL, frames, frame);
      frames := frames + [frame];
      TakeIn(frame);
    }

    /** What a frame makes of the stored snapshot. */
    method TakeIn(frame: Frame)
      modifies this`snapshot
      ensures snapshot == Update(old(snapshot), frame)
    {
      var state, plan, stream := snapshot.state, snapshot.plan, snapshot.stream;
      var live, reviewing := snapshot.live, snapshot.reviewing;
      match frame.event {
        case Whole(whole) =>
          snapshot := whole;
          return;
        case State(next) =>
          state := next;
          plan := PlanOf(next, plan);
        case AssistantText(text, partial) =>
          stream := SpeakInto(stream, text, partial);
        case PlanProposed(proposed) =>
          plan := Some(proposed);
        case PermissionCard(asked) =>
          state := AwaitingPermission(plan, asked);
        case QuestionAsked(asked) =>
          state := AwaitingQuestion(plan, asked);
        case LogEntry(entry) =>
          var at := FindIndex(stream, entry.toolUseId);
          if at == |stream| {
            stream := stream + [Step(entry)];
          } else {
            stream := stream[at := Step(entry)];
          }
        case Live(payload) =>
          live := payload;
        case Reviewing =>
          reviewing := true;
        case CompletedEvent(last) =>
          state, live, reviewing := last, "", false;
        case Other =>
      }
      snapshot := Snapshot(state, plan, stream, live, reviewing, frame.seqNo);
    }
  }

  method FindIndex(stream: seq<Item>, id: string) returns (at: nat)
    ensures at == FindStep(stream, id)
  {
    at := 0;
    while at < |stream| && !IsStep(stream[at], id)
      invariant at <= |stream|
      invariant forall i :: 0 <= i < at ==> !IsStep(stream[i], id)
    {
      at := at + 1;
    }
  }

  // ---- what the snapshot says of the log ----

  /** Folding a log in two parts is folding it at once: a reader that starts from a snapshot and folds the rest agrees. */
  lemma {:induction false} FoldInParts(s: Snapshot, frames: seq<Frame>, n: nat)
    requires n <= |frames|
    ensures Fold(Fold(s, frames[..n]), frames[n..]) == Fold(s, frames)
  {
    if n == |frames| {
      assert frames[..n] == frames;
    } else {
      var last := |frames| - 1;
      FoldInParts(s, frames[..last], n);
      assert frames[..last][..n] == frames[..n] && frames[..last][n..] == frames[n..][..last - n];
      assert frames[n..][last - n] == frames[last];
    }
  }

  /** The snapshot carries the number of its last frame exactly when that frame does not bring another number along. */
  lemma {:induction false} SnapshotCarriesLastSeq(frames: seq<Frame>)
    requires Numbered(frames)
    ensures Fold(INITIAL, frames).lastEventSeq == |frames|
            <==> frames != [] && frames[|frames| - 1].event.Whole? ==>
                   frames[|frames| - 1].event.snapshot.lastEventSeq == |frames|
  {
  }

  /** Where no frame is a snapshot, its number is the log's length. */
  lemma LastSeqIsLength(frames: seq<Frame>)
    requires Numbered(frames) && NoSnapshots(Events(frames))
    ensures Fold(INITIAL, frames).lastEventSeq == |frames|
  {
    assert frames != [] ==> Events(frames)[|frames| - 1] == frames[|frames| - 1].event;
    SnapshotCarriesLastSeq(frames);
  }

  predicate SameTool(a: Item, b: Item) {
    a.Step? && b.Step? && a.entry.toolUseId == b.entry.toolUseId
  }

  ghost predicate OneStepPerTool(stream: seq<Item>) {
    forall i, j :: 0 <= i < j < |stream| ==> !SameTool(stream[i], stream[j])
  }

  lemma LogKeepsOneStep(stream: seq<Item>, entry: Entry)
    requires OneStepPerTool(stream)
    ensures OneStepPerTool(LogInto(stream, entry))
  {
  }

  /** However often a tool use is logged, the transcript holds one step for it. */
  lemma {:induction false} OneStepPerToolUse(frames: seq<Frame>)
    requires forall f :: f in frames && f.event.Whole? ==> OneStepPerTool(f.event.snapshot.stream)
    ensures OneStepPerTool(Fold(INITIAL, frames).stream)
  {
    if frames != [] {
      var last := frames[|frames| - 1];
      OneStepPerToolUse(frames[..|frames| - 1]);
      if last.event.LogEntry? {
        LogKeepsOneStep(Fold(INITIAL, frames[..|frames| - 1]).stream, last.event.entry);
      }
    }
  }

  /** The last thing the log says of a tool use. */
  function LastEntry(frames: seq<Frame>, id: string): Option<Entry> {
    if frames == [] then None
    else
      var event := frames[|frames| - 1].event;
      if event.LogEntry? && event.entry.toolUseId == id then Some(event.entry)
      else LastEntry(frames[..|frames| - 1], id)
  }

  function EntryAt(stream: seq<Item>, id: string): Option<Entry> {
    var at := FindStep(stream, id);
    if at == |stream| then None else Some(stream[at].entry)
  }

  lemma LogEntryAt(stream: seq<Item>, entry: Entry, id: string)
    ensures EntryAt(LogInto(stream, entry), id)
         == if id == entry.toolUseId then Some(entry) else EntryAt(stream, id)
  {
    var at, logged := FindStep(stream, id), LogInto(stream, entry);
    var own, now := FindStep(stream, entry.toolUseId), FindStep(logged, id);
    if id == entry.toolUseId {
      assert IsStep(logged[own], id);
    } else if at < |stream| {
      assert IsStep(logged[at], id);
      assert now <= at && (now < |stream| ==> now == own || logged[now] == stream[now]);
    } else {
      assert forall i :: 0 <= i < |logged| ==> !IsStep(logged[i], id);
    }
  }

  lemma SpeakEntryAt(stream: seq<Item>, text: string, partial: bool, id: string)
    ensures EntryAt(SpeakInto(stream, text, partial), id) == EntryAt(stream, id)
  {
    var spoken := SpeakInto(stream, text, partial);
    var at, now := FindStep(stream, id), FindStep(spoken, id);
    assert forall i :: 0 <= i < |stream| ==> (IsStep(spoken[i], id) <==> IsStep(stream[i], id));
    assert |stream| < |spoken| ==> !IsStep(spoken[|stream|], id);
    if at < |stream| {
      assert now == at && spoken[at] == stream[at];
    }
  }

  /** The step the transcript holds for a tool use is the last one logged for it, and there is one if any was logged. */
  lemma {:induction false} StepIsLastLogged(frames: seq<Frame>, id: string)
    requires forall f :: f in frames ==> !f.event.Whole?
    ensures EntryAt(Fold(INITIAL, frames).stream, id) == LastEntry(frames, id)
  {
    if frames != [] {
      var before := frames[..|frames| - 1];
      StepIsLastLogged(before, id);
      var stream := Fold(INITIAL, before).stream;
      match frames[|frames| - 1].event {
        case LogEntry(entry) =>
          LogEntryAt(stream, entry, id);
        case AssistantText(text, partial) =>
          SpeakEntryAt(stream, text, partial, id);
        case _ =>
      }
    }
  }

  function Spoken(frames: seq<Frame>): string {
    if frames == [] then ""
    else
      Spoken(frames[..|frames| - 1]) + Said(frames[|frames| - 1].event)
  }

  function Said(event: Event): string {
    if event.AssistantText? then event.text else ""
  }

  function Prose(stream: seq<Item>): string {
    if stream == [] then ""
    else
      var item := stream[|stream| - 1];
      Prose(stream[..|stream| - 1]) + if item.Text? then item.text else ""
  }

  lemma {:induction false} ProseOfReplacedStep(stream: seq<Item>, at: nat, entry: Entry)
    requires at < |stream| && stream[at].Step?
    ensures Prose(stream[at := Step(entry)]) == Prose(stream)
  {
    var last := |stream| - 1;
    if at < last {
      ProseOfReplacedStep(stream[..last], at, entry);
      assert stream[at := Step(entry)][..last] == stream[..last][at := Step(entry)];
    } else {
      assert stream[at := Step(entry)][..last] == stream[..last];
    }
  }

  lemma ProseOfSpoken(stream: seq<Item>, text: string, partial: bool)
    ensures Prose(SpeakInto(stream, text, partial)) == Prose(stream) + text
  {
    var last := |stream| - 1;
    var spoken := SpeakInto(stream, text, partial);
    if partial && stream != [] && stream[last].Text? {
      assert spoken[..last] == stream[..last];
    } else {
      assert spoken[..|stream|] == stream;
    }
  }

  lemma UpdateAddsWhatWasSaid(s: Snapshot, f: Frame)
    requires !f.event.Whole?
    ensures Prose(Update(s, f).stream) == Prose(s.stream) + Said(f.event)
  {
    match f.event {
      case LogEntry(entry) =>
        var at := FindStep(s.stream, entry.toolUseId);
        if at < |s.stream| {
          ProseOfReplacedStep(s.stream, at, entry);
        } else {
          assert (s.stream + [Step(entry)])[..|s.stream|] == s.stream;
        }
      case AssistantText(text, partial) =>
        ProseOfSpoken(s.stream, text, partial);
      case _ =>
    }
  }

  /** No prose is lost or repeated: the transcript's text, read through, is everything the assistant said. */
  lemma {:induction false} ProseIsEverythingSpoken(frames: seq<Frame>)
    requires forall f :: f in frames ==> !f.event.Whole?
    ensures Prose(Fold(INITIAL, frames).stream) == Spoken(frames)
  {
    if frames != [] {
      var before := frames[..|frames| - 1];
      ProseIsEverythingSpoken(before);
      UpdateAddsWhatWasSaid(Fold(INITIAL, before), frames[|frames| - 1]);
    }
  }

  // ---- the other fields ----

  /** The plan an event tells, if it tells one. */
  function PlanTold(event: Event): Option<nat> {
    if event.PlanProposed? then Some(event.plan)
    else if !event.State? then None
    else if event.state.AwaitingPlanApproval? || event.state.Executing? then Some(event.state.plan)
    else if event.state.AwaitingPermission? then event.state.asked
    else if event.state.AwaitingQuestion? then event.state.about
    else None
  }

  function LastPlan(events: seq<Event>): Option<nat> {
    if events == [] then None
    else
      var told := PlanTold(events[|events| - 1]);
      if told.Some? then told else LastPlan(events[..|events| - 1])
  }

  /** The state an event tells; a card asks about the plan last told. */
  function StateTold(event: Event, plan: Option<nat>): Option<TurnState> {
    if event.State? || event.CompletedEvent? then Some(event.state)
    else if event.PermissionCard? then Some(AwaitingPermission(plan, event.permission))
    else if event.QuestionAsked? then Some(AwaitingQuestion(plan, event.question))
    else None
  }

  function LastState(events: seq<Event>): TurnState {
    if events == [] then Planning
    else
      var before := events[..|events| - 1];
      var told := StateTold(events[|events| - 1], LastPlan(before));
      if told.Some? then told.value else LastState(before)
  }

  /** The in-flight payload last told since the last completion. */
  function LastLive(events: seq<Event>): string {
    if events == [] || events[|events| - 1].CompletedEvent? then ""
    else if events[|events| - 1].Live? then events[|events| - 1].live
    else LastLive(events[..|events| - 1])
  }

  predicate UnderReview(events: seq<Event>) {
    events != [] && !events[|events| - 1].CompletedEvent?
    && (events[|events| - 1].Reviewing? || UnderReview(events[..|events| - 1]))
  }

  lemma UpdateTells(s: Snapshot, f: Frame)
    requires !f.event.Whole?
    ensures var u := Update(s, f);
            && u.plan == (if PlanTold(f.event).Some? then PlanTold(f.event) else s.plan)
            && u.state == (if StateTold(f.event, s.plan).Some? then StateTold(f.event, s.plan).value else s.state)
            && u.live == (if f.event.CompletedEvent? then "" else if f.event.Live? then f.event.live else s.live)
            && (u.reviewing <==> !f.event.CompletedEvent? && (f.event.Reviewing? || s.reviewing))
  {
  }

  lemma EventsFront(frames: seq<Frame>)
    requires frames != []
    ensures var events, n := Events(frames), |frames| - 1;
            events != [] && events[..|events| - 1] == Events(frames[..n]) && events[|events| - 1] == frames[n].event
  {
  }

  /**
   The stored state is the last one the log told, the plan the last plan, the in-flight payload the last payload and
   none after a completion, and the turn is under review from being told so to the completion.
   */
  lemma {:induction false} SnapshotIsLastTold(frames: seq<Frame>)
    requires NoSnapshots(Events(frames))
    ensures var s, events := Fold(INITIAL, frames), Events(frames);
            && s.state == LastState(events) && s.plan == LastPlan(events) && s.live == LastLive(events)
            && (s.reviewing <==> UnderReview(events))
  {
    if frames != [] {
      EventsFront(frames);
      SnapshotIsLastTold(frames[..|frames| - 1]);
      UpdateTells(Fold(INITIAL, frames[..|frames| - 1]), frames[|frames| - 1]);
    }
  }

  // ---- the order of the transcript ----

  /** The transcript as the log alone tells it: what was said, and which tool use came where. */
  datatype Line = Spoke(text: string) | Used(toolUseId: string)

  /** A fragment goes on with what was just being said; a whole message, or a fragment after a tool use, begins anew. */
  function Outlined(events: seq<Event>): seq<Line> {
    if events == [] then [] else GoingOn(Outlined(events[..|events| - 1]), events[|events| - 1])
  }

  function GoingOn(before: seq<Line>, event: Event): seq<Line> {
    if event.AssistantText? then
      if event.partial && before != [] && before[|before| - 1].Spoke? then
        before[..|before| - 1] + [Spoke(before[|before| - 1].text + event.text)]
      else before + [Spoke(event.text)]
    else if event.LogEntry? && Used(event.entry.toolUseId) !in before then before + [Used(event.entry.toolUseId)]
    else before
  }

  function Outline(stream: seq<Item>): (lines: seq<Line>)
    ensures |lines| == |stream|
  {
    seq(|stream|, i requires 0 <= i < |stream| => LineOf(stream[i]))
  }

  function LineOf(item: Item): Line {
    if item.Text? then Spoke(item.text) else Used(item.entry.toolUseId)
  }

  lemma OutlineOfLogged(stream: seq<Item>, entry: Entry)
    ensures var lines, id := Outline(stream), Used(entry.toolUseId);
            Outline(LogInto(stream, entry)) == if id in lines then lines else lines + [id]
  {
    var at, lines := FindStep(stream, entry.toolUseId), Outline(stream);
    assert forall i :: 0 <= i < |stream| ==> (IsStep(stream[i], entry.toolUseId) <==> lines[i] == Used(entry.toolUseId));
    if at < |stream| {
      assert lines[at] == Used(entry.toolUseId);
      assert Outline(stream[at := Step(entry)]) == lines;
    } else {
      assert Outline(stream + [Step(entry)]) == lines + [Used(entry.toolUseId)];
    }
  }

  lemma OutlineOfSpoken(stream: seq<Item>, text: string, partial: bool)
    ensures var lines := Outline(stream);
            Outline(SpeakInto(stream, text, partial))
            == if partial && lines != [] && lines[|lines| - 1].Spoke? then
                 lines[..|lines| - 1] + [Spoke(lines[|lines| - 1].text + text)]
               else lines + [Spoke(text)]
  {
  }

  /** Messages and tool uses stand in the stored transcript in the order the log first tells them, none run together. */
  lemma {:induction false} TranscriptIsOutlined(frames: seq<Frame>)
    requires NoSnapshots(Events(frames))
    ensures Outline(Fold(INITIAL, frames).stream) == Outlined(Events(frames))
  {
    if frames != [] {
      EventsFront(frames);
      TranscriptIsOutlined(frames[..|frames| - 1]);
      UpdateGoesOn(Fold(INITIAL, frames[..|frames| - 1]), frames[|frames| - 1]);
    }
  }

  lemma UpdateGoesOn(s: Snapshot, f: Frame)
    requires !f.event.Whole?
    ensures Outline(Update(s, f).stream) == GoingOn(Outline(s.stream), f.event)
  {
    match f.event
    case AssistantText(text, partial) => OutlineOfSpoken(s.stream, text, partial);
    case LogEntry(entry) => OutlineOfLogged(s.stream, entry);
    case _ =>
  }
}
